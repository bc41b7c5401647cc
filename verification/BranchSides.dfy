/**
 What one side of a branch gives a parameter, and when both sides give the same
 (crates/absint/src/induction.rs:354-371, crates/absint/src/relational.rs:182-209).
 The analyses read the arguments of the first matching side; a run takes either.
 */
module BranchSides {
  import opened Ir
  import Relational

  /** The condition is a constant that decides for the other side. */
  predicate NeverTaken(cond: Operand, taken: bool) {
    (cond.IntConst? && (cond.v != 0) != taken) || (cond.NullConst? && taken)
  }

  /** On the side taken while the condition is zero, the condition's register is zero. */
  function OnSide(cond: Operand, taken: bool, op: Operand): Operand {
    if op == NullConst || (!taken && op.Reg? && op == cond) then IntConst(0) else op
  }

  /** Whenever the side is taken, its argument at `pos` has the value of `want`. */
  predicate SideAgrees(cond: Operand, taken: bool, args: seq<Operand>, pos: nat, want: Operand) {
    || NeverTaken(cond, taken)
    || (pos < |args| && !args[pos].OpaqueConst? && OnSide(cond, taken, args[pos]) == OnSide(cond, taken, want))
  }

  /** The side may be taken in store `s` and give the parameter the value `v`. */
  ghost predicate SideGives(cond: Operand, taken: bool, args: seq<Operand>, pos: nat, s: Store, v: int) {
    MayTake(cond, s, taken) && (pos < |args| ==> Denotes(args[pos], s, v))
  }

  lemma SideAgreed(cond: Operand, taken: bool, args: seq<Operand>, pos: nat, want: Operand, s: Store, v: int)
    requires SideAgrees(cond, taken, args, pos, want) && SideGives(cond, taken, args, pos, s, v)
    ensures Denotes(want, s, v)
  {
  }

  /** A store in which the side is taken and gives another value than `want` has there. */
  function Apart(cond: Operand, taken: bool, args: seq<Operand>, pos: nat, want: Operand): Store {
    var chosen := if cond.Reg? && taken then map[cond.r := 1] else map[];
    if pos >= |args| || args[pos].OpaqueConst? then chosen
    else
      var a, w := OnSide(cond, taken, args[pos]), OnSide(cond, taken, want);
      if a.Reg? && w.Reg? then chosen[w.r := 1][a.r := 2]
      else if a.Reg? && w.IntConst? then chosen[a.r := Other(w.v)]
      else if a.IntConst? && w.Reg? then chosen[w.r := Other(a.v)]
      else chosen
  }

  /** A number that is neither zero nor `k`. */
  function Other(k: int): (v: int)
    ensures v != 0 && v != k
  {
    if k == 1 then 2 else 1
  }

  lemma SideApart(cond: Operand, taken: bool, args: seq<Operand>, pos: nat, want: Operand) returns (s: Store, v: int)
    requires !SideAgrees(cond, taken, args, pos, want) && !want.OpaqueConst?
    ensures SideGives(cond, taken, args, pos, s, v) && !Denotes(want, s, v)
  {
    s := Apart(cond, taken, args, pos, want);
    v := if pos >= |args| || args[pos].OpaqueConst? then Relational.SomeValue(want, s) + 1
         else Relational.SomeValue(args[pos], s);
    var c := if cond.OpaqueConst? then (if taken then 1 else 0) else Relational.SomeValue(cond, s);
    assert Denotes(cond, s, c) && (c != 0) == taken;
  }

  // ------------------------------------------------------------ the latch

  /** Every side of the branch that leads to block `to` passes register `nv` in position `pos`. */
  predicate SidesAgree(t: Terminator, to: nat, pos: nat, nv: nat) {
    match t
    case Br(target, args) => target == to ==> SideAgrees(IntConst(1), true, args, pos, Reg(nv))
    case CondBr(cond, thenBlk, thenArgs, elseBlk, elseArgs) =>
      && (thenBlk == to ==> SideAgrees(cond, true, thenArgs, pos, Reg(nv)))
      && (elseBlk == to ==> SideAgrees(cond, false, elseArgs, pos, Reg(nv)))
    case _ => true
  }

  /** The arguments the recogniser reads for the branch to `to` have register `nv` in position `pos`. */
  ghost predicate Passed(t: Terminator, to: nat, pos: nat, nv: nat) {
    var args := Relational.EdgeArgsOf(t, to);
    args.Some? && pos < |args.value| && args.value[pos] == Reg(nv)
  }

  /** With one edge to the block there is no second side to disagree. */
  lemma OneEdgeAgrees(t: Terminator, to: nat, pos: nat, nv: nat)
    requires Passed(t, to, pos, nv) && multiset(Successors(t))[to] == 1
    ensures SidesAgree(t, to, pos, nv)
  {
  }

  /** The branch to the header goes by that side: a jump is a side that is always taken. */
  ghost predicate Side(t: Terminator, to: nat, cond: Operand, taken: bool, args: seq<Operand>) {
    match t
    case Br(target, list) => target == to && cond == IntConst(1) && taken && args == list
    case CondBr(c, thenBlk, thenArgs, elseBlk, elseArgs) =>
      cond == c && if taken then thenBlk == to && args == thenArgs else elseBlk == to && args == elseArgs
    case _ => false
  }

  lemma PassesSide(b: Block, s: Store, to: Block, s': Store)
    requires to.params != []
    ensures Passes(b, s, to, s') <==>
            exists cond, taken, args :: Side(b.term, to.id, cond, taken, args) && MayTake(cond, s, taken) &&
                                        Binds(to.params, args, s, s')
  {
    match b.term
    case Br(target, args) =>
      assert Denotes(IntConst(1), s, 1) && MayTake(IntConst(1), s, true);
      assert target == to.id ==> Side(b.term, to.id, IntConst(1), true, args);
    case CondBr(cond, thenBlk, thenArgs, elseBlk, elseArgs) =>
      assert thenBlk == to.id ==> Side(b.term, to.id, cond, true, thenArgs);
      assert elseBlk == to.id ==> Side(b.term, to.id, cond, false, elseArgs);
    case _ =>
  }

  /** The header gets the value of `nv`, whichever way the branch goes. */
  lemma SidesBind(b: Block, header: Block, pos: nat, nv: nat, s: Store, s': Store)
    requires pos < |header.params| && SidesAgree(b.term, header.id, pos, nv) && Passes(b, s, header, s')
    ensures Val(s', header.params[pos]) == Val(s, nv)
  {
    PassesSide(b, s, header, s');
    var cond, taken, args :| Side(b.term, header.id, cond, taken, args) && MayTake(cond, s, taken) &&
                             Binds(header.params, args, s, s');
    hide Passes, MayTake, SideAgrees;
    SideAgreed(cond, taken, args, pos, Reg(nv), s, Val(s', header.params[pos]));
  }

  lemma BindsWith(params: seq<nat>, args: seq<Operand>, pos: nat, s: Store, v: int) returns (s': Store)
    requires pos < |params| && Relational.AllDistinct(params) && (pos < |args| ==> Denotes(args[pos], s, v))
    ensures Binds(params, args, s, s') && Val(s', params[pos]) == v
  {
    var t := Relational.BoundStore(s, params, args, |params|);
    Relational.BoundStoreBinds(s, params, args);
    s' := t[params[pos] := v];
  }

  lemma LatchApart(b: Block, header: Block, cond: Operand, taken: bool, args: seq<Operand>, pos: nat, nv: nat)
    returns (s: Store, s': Store)
    requires pos < |header.params| && Relational.AllDistinct(header.params)
    requires Side(b.term, header.id, cond, taken, args) && !SideAgrees(cond, taken, args, pos, Reg(nv))
    ensures Passes(b, s, header, s') && Val(s', header.params[pos]) != Val(s, nv)
  {
    hide SideAgrees, MayTake, Binds, Passes;
    var v: int;
    s, v := SideApart(cond, taken, args, pos, Reg(nv));
    s' := BindsWith(header.params, args, pos, s, v);
    PassesSide(b, s, header, s');
  }

  /**
   The header's parameter at `pos` gets the value of `nv` on every way from the
   latch to the header, if and only if every side of the branch agrees on it.
   */
  lemma LatchExactly(b: Block, header: Block, pos: nat, nv: nat)
    requires pos < |header.params| && Relational.AllDistinct(header.params)
    ensures SidesAgree(b.term, header.id, pos, nv) <==>
            forall s: Store, s': Store :: Passes(b, s, header, s') ==> Val(s', header.params[pos]) == Val(s, nv)
  {
    hide SideAgrees, Passes;
    if SidesAgree(b.term, header.id, pos, nv) {
      forall s: Store, s': Store | Passes(b, s, header, s') ensures Val(s', header.params[pos]) == Val(s, nv) {
        SidesBind(b, header, pos, nv, s, s');
      }
    } else if b.term.Br? {
      var s, s' := LatchApart(b, header, IntConst(1), true, b.term.args, pos, nv);
    } else if b.term.thenBlk == header.id && !SideAgrees(b.term.cond, true, b.term.thenArgs, pos, Reg(nv)) {
      var s, s' := LatchApart(b, header, b.term.cond, true, b.term.thenArgs, pos, nv);
    } else {
      var s, s' := LatchApart(b, header, b.term.cond, false, b.term.elseArgs, pos, nv);
    }
  }
}
