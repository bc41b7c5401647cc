/**
 Static single assignment makes the analyses' recorded comparisons and copies true when they are used: a record
 made in a block that dominates the current one still holds in the current store.
 */
module Ssa {
  import opened Wrappers
  import opened Graphs
  import opened Ir

  /** Definition site: position 0 is the block's parameter list, `i + 1` its instruction `i`. */
  ghost predicate DefAt(f: Function, x: nat, i: nat, r: nat) {
    && x < |f.blocks|
    && (if i == 0 then r in f.blocks[x].params
        else i - 1 < |f.blocks[x].insts| && DefinedReg(f.blocks[x].insts[i - 1]) == Some(r))
  }

  /** `register +/- constant`. */
  predicate IsStep(value: RValue) {
    value.Bin? && (value.bop.Add? || value.bop.Sub?) && value.lhs.Reg? && value.rhs.IntConst?
  }

  /** The instructions the analyses remember: comparisons, plain register copies and constant steps. */
  predicate IsRecord(inst: Inst) {
    inst.Assign? && (inst.value.Cmp? || (inst.value.Use? && inst.value.op.Reg?) || IsStep(inst.value))
  }

  ghost predicate Reads(inst: Inst, r: nat) {
    IsRecord(inst) &&
    match inst.value
    case Cmp(_, lhs, rhs) => lhs == Reg(r) || rhs == Reg(r)
    case Use(op) => op == Reg(r)
    case Bin(_, lhs, _) => lhs == Reg(r)
    case _ => false
  }

  /** What a remembered instruction says about a store. */
  ghost predicate RecordHolds(inst: Inst, s: Store)
    requires IsRecord(inst)
  {
    match inst.value
    case Cmp(cop, lhs, rhs) => Compared(cop, lhs, rhs, s, Val(s, inst.dst))
    case Use(op) => Val(s, inst.dst) == Val(s, op.r)
    case Bin(bop, lhs, rhs) => Computes(bop, Val(s, lhs.r), rhs.v, Val(s, inst.dst))
    case _ => true
  }

  ghost predicate RecordAt(f: Function, x: nat, j: nat) {
    x < |f.blocks| && j < |f.blocks[x].insts| && IsRecord(f.blocks[x].insts[j])
  }

  /** A definition site comes before position `j` of block `x` on every path. */
  ghost predicate Precedes(cfg: Cfg, d: nat, k: nat, x: nat, j: nat) {
    if d == x then k < j else Dominates(cfg.g, cfg.entry, d, x)
  }

  /** Single assignment, and every use of a record or branch is dominated by its definition. */
  ghost predicate StrictSsa(f: Function, cfg: Cfg) {
    && (forall x: nat, i: nat, y: nat, j: nat, r: nat ::
          DefAt(f, x, i, r) && DefAt(f, y, j, r) ==> x == y && i == j)
    && (forall x: nat, j: nat, d: nat, k: nat, r: nat ::
          RecordAt(f, x, j) && Reads(f.blocks[x].insts[j], r) && DefAt(f, d, k, r) ==> Precedes(cfg, d, k, x, j + 1))
    && (forall y: nat, d: nat, k: nat, r: nat ::
          y < |f.blocks| && f.blocks[y].term.CondBr? && f.blocks[y].term.cond == Reg(r) && DefAt(f, d, k, r) ==>
          Dominates(cfg.g, cfg.entry, d, y))
  }

  lemma SameOperand(op: Operand, s: Store, s': Store, v: int)
    requires op.Reg? ==> Val(s', op.r) == Val(s, op.r)
    ensures Denotes(op, s, v) <==> Denotes(op, s', v)
  {
  }

  /** A record survives any change that leaves its registers alone. */
  lemma RecordFrame(inst: Inst, s: Store, s': Store)
    requires IsRecord(inst) && RecordHolds(inst, s)
    requires Val(s', inst.dst) == Val(s, inst.dst)
    requires forall r: nat :: Reads(inst, r) ==> Val(s', r) == Val(s, r)
    ensures RecordHolds(inst, s')
  {
    match inst.value
    case Cmp(cop, lhs, rhs) =>
      var a, b :| Denotes(lhs, s, a) && Denotes(rhs, s, b) && Val(s, inst.dst) == (if Truth(cop, a, b) then 1 else 0);
      assert lhs.Reg? ==> Reads(inst, lhs.r);
      assert rhs.Reg? ==> Reads(inst, rhs.r);
      SameOperand(lhs, s, s', a);
      SameOperand(rhs, s, s', b);
    case Use(op) =>
      assert Reads(inst, op.r);
    case Bin(_, lhs, _) =>
      assert Reads(inst, lhs.r);
  }

  lemma StepFrame(inst: Inst, s: Store, s': Store, r: nat)
    requires Steps(inst, s, s') && DefinedReg(inst) != Some(r)
    ensures Val(s', r) == Val(s, r)
  {
  }

  /** Running a record that does not read its own result makes it true. */
  lemma RecordMade(inst: Inst, s: Store, s': Store)
    requires IsRecord(inst) && Steps(inst, s, s') && !Reads(inst, inst.dst)
    ensures RecordHolds(inst, s')
  {
    var v := s'[inst.dst];
    match inst.value
    case Cmp(cop, lhs, rhs) =>
      var a, b :| Denotes(lhs, s, a) && Denotes(rhs, s, b) && v == (if Truth(cop, a, b) then 1 else 0);
      assert lhs.Reg? ==> Reads(inst, lhs.r);
      assert rhs.Reg? ==> Reads(inst, rhs.r);
      SameOperand(lhs, s, s', a);
      SameOperand(rhs, s, s', b);
    case Use(op) =>
      assert Reads(inst, op.r);
    case Bin(_, lhs, _) =>
      assert Reads(inst, lhs.r);
  }

  /** The record has been executed when the run stands before instruction `i` of block `y`. */
  ghost predicate Executed(cfg: Cfg, x: nat, j: nat, y: nat, i: nat) {
    if x == y then j < i else Dominates(cfg.g, cfg.entry, x, y)
  }

  /** Later definitions in reach of an executed record touch neither its result nor what it reads. */
  lemma Untouched(f: Function, cfg: Cfg, x: nat, j: nat, y: nat, i: nat, r: nat, p: seq<nat>)
    requires StrictSsa(f, cfg) && RecordAt(f, x, j) && DefAt(f, y, i, r)
    requires PathFromTo(cfg.g, p, cfg.entry, y)
    requires if x == y then j + 1 < i else Dominates(cfg.g, cfg.entry, x, y)
    ensures r != f.blocks[x].insts[j].dst && !Reads(f.blocks[x].insts[j], r)
  {
    var inst := f.blocks[x].insts[j];
    assert DefAt(f, x, j + 1, inst.dst);
    if Reads(inst, r) {
      assert Precedes(cfg, y, i, x, j + 1);
      DominatesAntisym(cfg.g, cfg.entry, y, x, p);
    }
  }

  /** Every record executed on the way holds in the store the run has reached. */
  lemma {:induction false} RecordsHold(f: Function, cfg: Cfg, run: seq<Visit>, k: nat, i: nat, x: nat, j: nat)
    requires DistinctIds(f) && IsCfg(f, cfg) && StrictSsa(f, cfg) && IsRun(f, run)
    requires k < |run| && i < |run[k].stores| && RecordAt(f, x, j) && Executed(cfg, x, j, run[k].node, i)
    ensures RecordHolds(f.blocks[x].insts[j], run[k].stores[i])
    decreases k, i, 1
  {
    var y := run[k].node;
    var inst := f.blocks[x].insts[j];
    RunReaches(f, cfg, run, k);
    var p :| PathFromTo(cfg.g, p, cfg.entry, y);
    assert IsVisit(f, run[k]);
    hide StrictSsa, IsRun, IsCfg, Dominates;
    if i > 0 {
      var here := f.blocks[y].insts[i - 1];
      var s, s' := run[k].stores[i - 1], run[k].stores[i];
      assert Steps(here, s, s');
      if x == y && j == i - 1 {
        OwnResultUnread(f, cfg, x, j);
        RecordMade(inst, s, s');
      } else {
        RecordsHold(f, cfg, run, k, i - 1, x, j);
        RecordKeptByStep(f, cfg, x, j, y, i, s, s', p);
      }
    } else {
      RecordEnters(f, cfg, run, k, x, j);
    }
  }

  lemma OwnResultUnread(f: Function, cfg: Cfg, x: nat, j: nat)
    requires StrictSsa(f, cfg) && RecordAt(f, x, j)
    ensures !Reads(f.blocks[x].insts[j], f.blocks[x].insts[j].dst)
  {
    assert DefAt(f, x, j + 1, f.blocks[x].insts[j].dst);
    assert Reads(f.blocks[x].insts[j], f.blocks[x].insts[j].dst) ==> Precedes(cfg, x, j + 1, x, j + 1);
  }

  lemma RecordKeptByStep(f: Function, cfg: Cfg, x: nat, j: nat, y: nat, i: nat, s: Store, s': Store, p: seq<nat>)
    requires StrictSsa(f, cfg) && RecordAt(f, x, j) && y < |f.blocks| && 0 < i <= |f.blocks[y].insts|
    requires Steps(f.blocks[y].insts[i - 1], s, s') && RecordHolds(f.blocks[x].insts[j], s)
    requires PathFromTo(cfg.g, p, cfg.entry, y)
    requires if x == y then j + 1 < i else Dominates(cfg.g, cfg.entry, x, y)
    ensures RecordHolds(f.blocks[x].insts[j], s')
  {
    var inst := f.blocks[x].insts[j];
    var here := f.blocks[y].insts[i - 1];
    if DefinedReg(here).Some? {
      assert DefAt(f, y, i, DefinedReg(here).value);
      Untouched(f, cfg, x, j, y, i, DefinedReg(here).value, p);
    }
    hide StrictSsa, Dominates;
    StepFrame(here, s, s', inst.dst);
    forall r: nat | Reads(inst, r) ensures Val(s', r) == Val(s, r) {
      StepFrame(here, s, s', r);
    }
    RecordFrame(inst, s, s');
  }

  /** A record made in a strict dominator holds on entry to the block. */
  lemma {:induction false} RecordEnters(f: Function, cfg: Cfg, run: seq<Visit>, k: nat, x: nat, j: nat)
    requires DistinctIds(f) && IsCfg(f, cfg) && StrictSsa(f, cfg) && IsRun(f, run)
    requires k < |run| && run[k].stores != [] && RecordAt(f, x, j) && Executed(cfg, x, j, run[k].node, 0)
    ensures RecordHolds(f.blocks[x].insts[j], run[k].stores[0])
    decreases k, 0, 0
  {
    var y := run[k].node;
    RunReaches(f, cfg, run, k);
    var p :| PathFromTo(cfg.g, p, cfg.entry, y);
    hide Dominates, StrictSsa;
    if k == 0 {
      EntryNode(f, cfg, run);
      EntryDominator(cfg, x);
    } else {
      var prev := run[k - 1];
      assert Follows(f, prev, run[k]);
      FollowsEdge(f, cfg, prev, run[k]);
      DominatesPred(cfg.g, cfg.entry, x, prev.node, y);
      RecordsHold(f, cfg, run, k - 1, |prev.stores| - 1, x, j);
      RecordKeptByEdge(f, cfg, x, j, prev, run[k], p);
    }
  }

  lemma EntryDominator(cfg: Cfg, x: nat)
    requires cfg.entry < cfg.g.N() && Dominates(cfg.g, cfg.entry, x, cfg.entry)
    ensures x == cfg.entry
  {
    assert PathFromTo(cfg.g, [cfg.entry], cfg.entry, cfg.entry);
    assert x in [cfg.entry];
  }

  lemma RecordKeptByEdge(f: Function, cfg: Cfg, x: nat, j: nat, v: Visit, v': Visit, p: seq<nat>)
    requires StrictSsa(f, cfg) && RecordAt(f, x, j) && Follows(f, v, v')
    requires RecordHolds(f.blocks[x].insts[j], Final(v)) && PathFromTo(cfg.g, p, cfg.entry, v'.node)
    requires x != v'.node && Dominates(cfg.g, cfg.entry, x, v'.node)
    ensures RecordHolds(f.blocks[x].insts[j], v'.stores[0])
  {
    var inst := f.blocks[x].insts[j];
    var params := f.blocks[v'.node].params;
    forall r: nat | r in params ensures r != inst.dst && !Reads(inst, r) {
      assert DefAt(f, v'.node, 0, r);
      Untouched(f, cfg, x, j, v'.node, 0, r, p);
    }
    hide StrictSsa, Dominates;
    PassFrame(f, v, v');
    RecordFrame(inst, Final(v), v'.stores[0]);
  }

  lemma PassFrame(f: Function, v: Visit, v': Visit)
    requires Follows(f, v, v')
    ensures forall r: nat :: r !in f.blocks[v'.node].params ==> Val(v'.stores[0], r) == Val(Final(v), r)
  {
  }

  // ---------------------------------------------------------- at a branch

  /** All records of dominating blocks hold: what a store looks like at the end of block `y`. */
  ghost predicate AllRecords(f: Function, cfg: Cfg, y: nat, s: Store) {
    forall x: nat, j: nat :: RecordAt(f, x, j) && Dominates(cfg.g, cfg.entry, x, y) ==>
      RecordHolds(f.blocks[x].insts[j], s)
  }

  /** Single assignment supplies every recorded fact at the end of every visited block. */
  lemma RecordsAtBranch(f: Function, cfg: Cfg, run: seq<Visit>, k: nat)
    requires DistinctIds(f) && IsCfg(f, cfg) && StrictSsa(f, cfg) && IsRun(f, run)
    requires k < |run| && Ir.Finished(f, run[k])
    ensures AllRecords(f, cfg, run[k].node, Final(run[k]))
  {
    forall x: nat, j: nat | RecordAt(f, x, j) && Dominates(cfg.g, cfg.entry, x, run[k].node)
      ensures RecordHolds(f.blocks[x].insts[j], Final(run[k]))
    {
      RecordsHold(f, cfg, run, k, |run[k].stores| - 1, x, j);
    }
  }
}
