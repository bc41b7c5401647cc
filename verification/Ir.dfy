/**
 The part of the intermediate representation the analyses read, with a concrete
 semantics over mathematical integers, and the lookup from block ids to nodes
 (crates/ir, crates/cfg/src/graph.rs). Instructions whose result the numeric
 domains do not track are one `Define` that may produce any value.
 */
module Ir {
  import opened Wrappers
  import opened Graphs

  /** `OpaqueConst` stands for undef and symbol addresses: constants without a known number. */
  datatype Operand = Reg(r: nat) | IntConst(v: int) | NullConst | OpaqueConst(id: nat)

  datatype BinOp = Add | Sub | Mul | OtherBin

  datatype CmpOp = Eq | Ne | Ult | Ule | Ugt | Uge | Slt | Sle | Sgt | Sge

  datatype CastOp = Trunc | ZExt | SExt | PtrToInt | IntToPtr | Bitcast

  datatype RValue =
    | Use(op: Operand)
    | Bin(bop: BinOp, lhs: Operand, rhs: Operand)
    | Cmp(cop: CmpOp, lhs: Operand, rhs: Operand)
    | Cast(castOp: CastOp, bits: nat, operand: Operand)
    | Select

  datatype Inst = Assign(dst: nat, value: RValue) | Define(dst: nat) | Effect

  datatype Terminator =
    | Return
    | Unreachable
    | Br(target: nat, args: seq<Operand>)
    | CondBr(cond: Operand, thenBlk: nat, thenArgs: seq<Operand>, elseBlk: nat, elseArgs: seq<Operand>)
    | Switch(targets: seq<nat>)

  datatype Block = Block(id: nat, params: seq<nat>, insts: seq<Inst>, term: Terminator)

  datatype Function = Function(params: seq<nat>, blocks: seq<Block>, entry: nat)

  function DefinedReg(inst: Inst): Option<nat> {
    match inst
    case Assign(dst, _) => Some(dst)
    case Define(dst) => Some(dst)
    case Effect => None
  }

  function Successors(t: Terminator): seq<nat> {
    match t
    case Return => []
    case Unreachable => []
    case Br(target, _) => [target]
    case CondBr(_, thenBlk, _, elseBlk, _) => [thenBlk, elseBlk]
    case Switch(targets) => targets
  }

  // --------------------------------------------------------- block lookup

  function FindFrom(blocks: seq<Block>, id: nat, i: nat): Option<Block>
    requires i <= |blocks|
    decreases |blocks| - i
  {
    if i == |blocks| then None
    else if blocks[i].id == id then Some(blocks[i])
    else FindFrom(blocks, id, i + 1)
  }

  /** Look a block up by id: the positional fast path first, then a search. */
  function Lookup(f: Function, id: nat): Option<Block> {
    if id < |f.blocks| && f.blocks[id].id == id then Some(f.blocks[id]) else FindFrom(f.blocks, id, 0)
  }

  ghost predicate DistinctIds(f: Function) {
    forall i, j :: 0 <= i < j < |f.blocks| ==> f.blocks[i].id != f.blocks[j].id
  }

  lemma {:induction false} FindFromHits(blocks: seq<Block>, k: nat, i: nat)
    requires i <= k < |blocks| && forall a, b :: 0 <= a < b < |blocks| ==> blocks[a].id != blocks[b].id
    ensures FindFrom(blocks, blocks[k].id, i) == Some(blocks[k])
    decreases |blocks| - i
  {
    if i < k {
      FindFromHits(blocks, k, i + 1);
    }
  }

  /** With distinct ids the lookup of a node's id is that node's block. */
  lemma LookupNode(f: Function, k: nat)
    requires DistinctIds(f) && k < |f.blocks|
    ensures Lookup(f, f.blocks[k].id) == Some(f.blocks[k])
  {
    FindFromHits(f.blocks, k, 0);
  }

  // ------------------------------------------------- control-flow graph

  datatype Cfg = Cfg(blocks: seq<nat>, indexOf: map<nat, nat>, g: Graph, entry: nat)

  /** Ids map to nodes; of several blocks with one id the last is kept. */
  ghost predicate IsIndex(f: Function, indexOf: map<nat, nat>, n: nat) {
    && n <= |f.blocks|
    && (forall id: nat :: id in indexOf ==> indexOf[id] < n && f.blocks[indexOf[id]].id == id)
    && (forall i: nat :: i < n ==> f.blocks[i].id in indexOf && i <= indexOf[f.blocks[i].id])
  }

  /** Node `i` has an edge to `j` just when its terminator names the id that maps to `j`. */
  ghost predicate Branches(f: Function, indexOf: map<nat, nat>, i: nat, j: nat) {
    i < |f.blocks| && exists t :: t in Successors(f.blocks[i].term) && t in indexOf && indexOf[t] == j
  }

  ghost predicate IsCfg(f: Function, cfg: Cfg) {
    && |cfg.blocks| == |f.blocks| == cfg.g.N() && cfg.g.Valid()
    && (forall i :: 0 <= i < |f.blocks| ==> cfg.blocks[i] == f.blocks[i].id)
    && IsIndex(f, cfg.indexOf, |f.blocks|)
    && (forall i: nat, j: nat :: cfg.g.Edge(i, j) <==> Branches(f, cfg.indexOf, i, j))
    && cfg.entry == (if f.entry in cfg.indexOf then cfg.indexOf[f.entry] else 0)
  }

  /** The adjacency after the nodes below `n`, and `k` targets of node `n`, have been entered. */
  ghost predicate Wired(f: Function, indexOf: map<nat, nat>, succ: seq<seq<nat>>, pred: seq<seq<nat>>, n: nat, k: nat) {
    && |succ| == |pred| == |f.blocks|
    && (forall i: nat, j: nat :: i < |succ| && j < |succ| ==> (j in succ[i] <==> WiredEdge(f, indexOf, i, j, n, k)))
    && (forall i: nat, j: nat :: i < |succ| && j < |succ| ==> (j in succ[i] <==> i in pred[j]))
    && (forall i, k :: 0 <= i < |succ| && 0 <= k < |succ[i]| ==> succ[i][k] < |f.blocks|)
    && (forall i, k :: 0 <= i < |pred| && 0 <= k < |pred[i]| ==> pred[i][k] < |f.blocks|)
  }

  ghost predicate WiredEdge(f: Function, indexOf: map<nat, nat>, i: nat, j: nat, n: nat, k: nat)
    requires i < |f.blocks|
  {
    exists x :: 0 <= x < |Successors(f.blocks[i].term)| && (i < n || (i == n && x < k)) &&
                Successors(f.blocks[i].term)[x] in indexOf && indexOf[Successors(f.blocks[i].term)[x]] == j
  }

  lemma WireOne(f: Function, indexOf: map<nat, nat>, succ: seq<seq<nat>>, pred: seq<seq<nat>>, n: nat, k: nat)
    requires n < |f.blocks| && k < |Successors(f.blocks[n].term)| && Wired(f, indexOf, succ, pred, n, k)
    requires IsIndex(f, indexOf, |f.blocks|)
    ensures var t := Successors(f.blocks[n].term)[k];
            if t in indexOf then
              var j := indexOf[t];
              Wired(f, indexOf, succ[n := succ[n] + [j]], pred[j := pred[j] + [n]], n, k + 1)
            else Wired(f, indexOf, succ, pred, n, k + 1)
  {
    var ts := Successors(f.blocks[n].term);
    var t := ts[k];
    forall i: nat, j: nat | i < |succ| && j < |succ|
      ensures WiredEdge(f, indexOf, i, j, n, k + 1) <==>
              WiredEdge(f, indexOf, i, j, n, k) || (i == n && t in indexOf && indexOf[t] == j)
    {
      if i == n && t in indexOf && indexOf[t] == j {
        assert ts[k] in indexOf;
      }
    }
  }

  lemma WireNext(f: Function, indexOf: map<nat, nat>, succ: seq<seq<nat>>, pred: seq<seq<nat>>, n: nat)
    requires n < |f.blocks| && Wired(f, indexOf, succ, pred, n, |Successors(f.blocks[n].term)|)
    ensures Wired(f, indexOf, succ, pred, n + 1, 0)
  {
    forall i: nat, j: nat | i < |succ| && j < |succ|
      ensures WiredEdge(f, indexOf, i, j, n + 1, 0) <==>
              WiredEdge(f, indexOf, i, j, n, |Successors(f.blocks[n].term)|)
    {
    }
  }

  lemma WireStart(f: Function, indexOf: map<nat, nat>, succ: seq<seq<nat>>, pred: seq<seq<nat>>)
    requires |succ| == |pred| == |f.blocks| && forall i :: 0 <= i < |succ| ==> succ[i] == [] && pred[i] == []
    ensures Wired(f, indexOf, succ, pred, 0, 0)
  {
  }

  lemma WireDone(f: Function, indexOf: map<nat, nat>, succ: seq<seq<nat>>, pred: seq<seq<nat>>)
    requires Wired(f, indexOf, succ, pred, |f.blocks|, 0) && IsIndex(f, indexOf, |f.blocks|)
    ensures Graph(succ, pred).Valid()
    ensures forall i: nat, j: nat :: Graph(succ, pred).Edge(i, j) <==> Branches(f, indexOf, i, j)
  {
    forall i: nat, j: nat ensures Graph(succ, pred).Edge(i, j) <==> Branches(f, indexOf, i, j) {
      if i < |f.blocks| {
        var ts := Successors(f.blocks[i].term);
        if j in succ[i] {
          var x :| 0 <= x < |ts| && ts[x] in indexOf && indexOf[ts[x]] == j;
        }
        if Branches(f, indexOf, i, j) {
          var t :| t in ts && t in indexOf && indexOf[t] == j;
          var x :| 0 <= x < |ts| && ts[x] == t;
          assert WiredEdge(f, indexOf, i, j, |f.blocks|, 0);
        }
      }
    }
  }

  lemma WiredSize(f: Function, indexOf: map<nat, nat>, succ: seq<seq<nat>>, pred: seq<seq<nat>>, n: nat, k: nat)
    requires Wired(f, indexOf, succ, pred, n, k)
    ensures |succ| == |pred| == |f.blocks|
  {
  }

  /** The nodes that the first `k` targets name, in order; a target that names no block is dropped. */
  function Named(targets: seq<nat>, indexOf: map<nat, nat>, k: nat): seq<nat>
    requires k <= |targets|
  {
    if k == 0 then []
    else if targets[k - 1] in indexOf then Named(targets, indexOf, k - 1) + [indexOf[targets[k - 1]]]
    else Named(targets, indexOf, k - 1)
  }

  function NamedBy(t: Terminator, indexOf: map<nat, nat>): seq<nat> {
    Named(Successors(t), indexOf, |Successors(t)|)
  }

  /** Successor lists hold one entry for each target, in the terminator's order: a target named twice is there twice. */
  ghost predicate Listed(f: Function, cfg: Cfg) {
    && |cfg.g.succ| == |f.blocks|
    && forall i: nat :: i < |f.blocks| ==> cfg.g.succ[i] == NamedBy(f.blocks[i].term, cfg.indexOf)
  }

  ghost predicate ListedBelow(f: Function, indexOf: map<nat, nat>, succ: seq<seq<nat>>, n: nat) {
    && |succ| == |f.blocks|
    && (forall i: nat :: i < |f.blocks| && i < n ==> succ[i] == NamedBy(f.blocks[i].term, indexOf))
    && (forall i: nat :: n <= i < |f.blocks| ==> succ[i] == [])
  }

  lemma ListOne(f: Function, indexOf: map<nat, nat>, succ: seq<seq<nat>>, row: seq<nat>, n: nat)
    requires ListedBelow(f, indexOf, succ, n) && n < |f.blocks| && row == NamedBy(f.blocks[n].term, indexOf)
    ensures ListedBelow(f, indexOf, succ[n := row], n + 1)
  {
    hide NamedBy;
  }

  lemma {:induction false} NamedCount(targets: seq<nat>, indexOf: map<nat, nat>, k: nat, id: nat, node: nat)
    requires k <= |targets| && forall t: nat :: t in indexOf && indexOf[t] == node <==> t == id
    ensures multiset(Named(targets, indexOf, k))[node] == multiset(targets[..k])[id]
  {
    if k > 0 {
      NamedCount(targets, indexOf, k - 1, id, node);
      assert targets[..k] == targets[..k - 1] + [targets[k - 1]];
    }
  }

  /** A row names a node as often as the terminator names its block. */
  lemma EdgesNamed(f: Function, cfg: Cfg, u: nat, node: nat)
    requires DistinctIds(f) && IsCfg(f, cfg) && Listed(f, cfg) && u < |f.blocks| && node < |f.blocks|
    ensures u < |cfg.g.succ|
    ensures multiset(cfg.g.succ[u])[node] == multiset(Successors(f.blocks[u].term))[f.blocks[node].id]
  {
    var ts := Successors(f.blocks[u].term);
    var id := f.blocks[node].id;
    assert id in cfg.indexOf && f.blocks[cfg.indexOf[id]].id == id;
    NamedCount(ts, cfg.indexOf, |ts|, id, node);
    assert ts[..|ts|] == ts;
  }

  lemma ListStart(f: Function, indexOf: map<nat, nat>, succ: seq<seq<nat>>)
    requires |succ| == |f.blocks| && forall i :: 0 <= i < |succ| ==> succ[i] == []
    ensures ListedBelow(f, indexOf, succ, 0)
  {
  }

  lemma ListEmpty(f: Function, indexOf: map<nat, nat>, succ: seq<seq<nat>>, n: nat)
    requires ListedBelow(f, indexOf, succ, n) && n < |f.blocks|
    ensures |succ| == |f.blocks| && succ[n] == [] && succ == succ[n := []]
  {
  }

  lemma ListDone(f: Function, indexOf: map<nat, nat>, succ: seq<seq<nat>>)
    requires ListedBelow(f, indexOf, succ, |f.blocks|)
    ensures |succ| == |f.blocks|
    ensures forall i: nat :: i < |f.blocks| ==> succ[i] == NamedBy(f.blocks[i].term, indexOf)
  {
  }

  /** Build the graph from the terminators; targets that name no block are dropped. */
  method FromFunction(f: Function) returns (cfg: Cfg)
    ensures IsCfg(f, cfg) && Listed(f, cfg)
  {
    hide Wired, WiredEdge, ListedBelow;
    var n := |f.blocks|;
    var ids := seq(n, i requires 0 <= i < n => f.blocks[i].id);
    var indexOf: map<nat, nat> := map[];
    for i := 0 to n
      invariant IsIndex(f, indexOf, i)
    {
      indexOf := indexOf[ids[i] := i];
    }
    var succ: seq<seq<nat>> := seq(n, _ => []);
    var pred: seq<seq<nat>> := seq(n, _ => []);
    WireStart(f, indexOf, succ, pred);
    ListStart(f, indexOf, succ);
    for i := 0 to n
      invariant Wired(f, indexOf, succ, pred, i, 0)
      invariant ListedBelow(f, indexOf, succ, i)
    {
      var targets := Successors(f.blocks[i].term);
      ghost var was := succ;
      ListEmpty(f, indexOf, succ, i);
      for k := 0 to |targets|
        invariant Wired(f, indexOf, succ, pred, i, k)
        invariant |was| == |succ| == n && succ == was[i := Named(targets, indexOf, k)]
      {
        WiredSize(f, indexOf, succ, pred, i, k);
        WireOne(f, indexOf, succ, pred, i, k);
        assert succ[i] == Named(targets, indexOf, k);
        if targets[k] in indexOf {
          var j := indexOf[targets[k]];
          succ := succ[i := succ[i] + [j]];
          pred := pred[j := pred[j] + [i]];
        }
        assert succ[i] == Named(targets, indexOf, k + 1);
      }
      WireNext(f, indexOf, succ, pred, i);
      ListOne(f, indexOf, was, succ[i], i);
    }
    ListDone(f, indexOf, succ);
    WiredSize(f, indexOf, succ, pred, n, 0);
    WireDone(f, indexOf, succ, pred);
    cfg := Cfg(ids, indexOf, Graph(succ, pred), if f.entry in indexOf then indexOf[f.entry] else 0);
  }

  // -------------------------------------------------- concrete semantics

  /** Register values; a register never written reads as zero. */
  type Store = map<nat, int>

  function Val(s: Store, r: nat): int {
    if r in s then s[r] else 0
  }

  /** `v` is a value the operand may have in `s`. */
  ghost predicate Denotes(op: Operand, s: Store, v: int) {
    match op
    case Reg(r) => v == Val(s, r)
    case IntConst(c) => v == c
    case NullConst => v == 0
    case OpaqueConst(_) => true
  }

  /** The 64-bit unsigned reading of a signed value. */
  function Unsigned(v: int): int {
    if v < 0 then v + TWO_64 else v
  }

  predicate Truth(op: CmpOp, a: int, b: int) {
    match op
    case Eq => a == b
    case Ne => a != b
    case Slt => a < b
    case Sle => a <= b
    case Sgt => a > b
    case Sge => a >= b
    case Ult => Unsigned(a) < Unsigned(b)
    case Ule => Unsigned(a) <= Unsigned(b)
    case Ugt => Unsigned(a) > Unsigned(b)
    case Uge => Unsigned(a) >= Unsigned(b)
  }

  /** The negation of a comparison predicate. */
  function Negate(op: CmpOp): CmpOp {
    match op
    case Eq => Ne
    case Ne => Eq
    case Ult => Uge
    case Ule => Ugt
    case Ugt => Ule
    case Uge => Ult
    case Slt => Sge
    case Sle => Sgt
    case Sgt => Sle
    case Sge => Slt
  }

  predicate IsUnsigned(op: CmpOp) {
    op == Ult || op == Ule || op == Ugt || op == Uge
  }

  function SignedOf(op: CmpOp): CmpOp {
    match op
    case Ult => Slt
    case Ule => Sle
    case Ugt => Sgt
    case Uge => Sge
    case _ => op
  }

  predicate In64(v: int) {
    -TWO_64 / 2 <= v < TWO_64 / 2
  }

  /** An unsigned test is read as its signed twin, which agrees when the operands have one sign. */
  predicate OneSign(op: CmpOp, a: int, b: int) {
    IsUnsigned(op) ==> ((a < 0) <==> (b < 0))
  }

  /** An unsigned test agrees with its signed reading if and only if the operands have the same sign. */
  lemma UnsignedAgreesExactly(op: CmpOp, a: int, b: int)
    requires IsUnsigned(op) && In64(a) && In64(b)
    ensures (Truth(op, a, b) <==> Truth(SignedOf(op), a, b)) <==> ((a < 0) <==> (b < 0))
  {
  }

  lemma NegateExact(op: CmpOp, a: int, b: int)
    ensures Truth(Negate(op), a, b) <==> !Truth(op, a, b)
    ensures OneSign(Negate(op), a, b) <==> OneSign(op, a, b)
  {
  }

  /** Zero extension of a `bits`-wide value read as signed. */
  function ZeroExtended(bits: nat, v: int): int {
    if v < 0 then v + Pow2(bits) else v
  }

  function Pow2(n: nat): nat {
    if n == 0 then 1 else 2 * Pow2(n - 1)
  }

  ghost predicate Computes(bop: BinOp, a: int, b: int, v: int) {
    match bop
    case Add => v == a + b
    case Sub => v == a - b
    case Mul => v == a * b
    case OtherBin => true
  }

  /** The register holds the outcome of the comparison. */
  ghost predicate Compared(cop: CmpOp, lhs: Operand, rhs: Operand, s: Store, v: int) {
    exists a, b :: Denotes(lhs, s, a) && Denotes(rhs, s, b) && v == (if Truth(cop, a, b) then 1 else 0)
  }

  ghost predicate Evaluates(rv: RValue, s: Store, v: int) {
    match rv
    case Use(op) => Denotes(op, s, v)
    case Bin(bop, lhs, rhs) => exists a, b :: Denotes(lhs, s, a) && Denotes(rhs, s, b) && Computes(bop, a, b, v)
    case Cmp(cop, lhs, rhs) => Compared(cop, lhs, rhs, s, v)
    case Cast(castOp, bits, operand) =>
      (match castOp
       case SExt => Denotes(operand, s, v)
       case ZExt => exists a :: Denotes(operand, s, a) && v == ZeroExtended(bits, a)
       case _ => true)
    case Select => true
  }

  /** One instruction takes `s` to `s'`. */
  ghost predicate Steps(inst: Inst, s: Store, s': Store) {
    match inst
    case Assign(dst, value) => dst in s' && Evaluates(value, s, s'[dst]) && s' == s[dst := s'[dst]]
    case Define(dst) => dst in s' && s' == s[dst := s'[dst]]
    case Effect => s' == s
  }

  /** A conditional branch on `cond` may take the given side. */
  ghost predicate MayTake(cond: Operand, s: Store, taken: bool) {
    exists v :: Denotes(cond, s, v) && (v != 0) == taken
  }

  /** Parameters take the arguments' values in `s` all at once; missing arguments are arbitrary. */
  ghost predicate Binds(params: seq<nat>, args: seq<Operand>, s: Store, s': Store) {
    && (forall r: nat :: r !in params ==> Val(s', r) == Val(s, r))
    && (forall i :: 0 <= i < |params| && i < |args| ==> Denotes(args[i], s, Val(s', params[i])))
  }

  /** Control may pass from the end of block `b` in store `s` to block `to` in store `s'`. */
  ghost predicate Passes(b: Block, s: Store, to: Block, s': Store) {
    match b.term
    case Return => false
    case Unreachable => false
    case Br(target, args) => target == to.id && Binds(to.params, args, s, s')
    case CondBr(cond, thenBlk, thenArgs, elseBlk, elseArgs) =>
      || (thenBlk == to.id && MayTake(cond, s, true) && Binds(to.params, thenArgs, s, s'))
      || (elseBlk == to.id && MayTake(cond, s, false) && Binds(to.params, elseArgs, s, s'))
    case Switch(targets) => to.id in targets && to.params == [] && s' == s
  }

  /** One stay in a block: the stores before each instruction reached, and after the last one run. */
  datatype Visit = Visit(node: nat, stores: seq<Store>)

  ghost predicate IsVisit(f: Function, v: Visit) {
    && v.node < |f.blocks|
    && 1 <= |v.stores| <= |f.blocks[v.node].insts| + 1
    && forall i, j :: 0 <= i && j == i + 1 < |v.stores| ==> Steps(f.blocks[v.node].insts[i], v.stores[i], v.stores[j])
  }

  ghost predicate Finished(f: Function, v: Visit) {
    v.node < |f.blocks| && |v.stores| == |f.blocks[v.node].insts| + 1
  }

  function Final(v: Visit): Store
    requires v.stores != []
  {
    v.stores[|v.stores| - 1]
  }

  ghost predicate Follows(f: Function, v: Visit, v': Visit) {
    && Finished(f, v) && v'.node < |f.blocks| && v'.stores != []
    && Passes(f.blocks[v.node], Final(v), f.blocks[v'.node], v'.stores[0])
  }

  /** A finite run from the entry block, stopping anywhere. */
  ghost predicate IsRun(f: Function, run: seq<Visit>) {
    && run != []
    && (forall i :: 0 <= i < |run| ==> IsVisit(f, run[i]))
    && f.blocks[run[0].node].id == f.entry
    && (forall i, j :: 0 <= i && j == i + 1 < |run| ==> Follows(f, run[i], run[j]))
  }

  lemma VisitFacts(f: Function, run: seq<Visit>, k: nat)
    requires IsRun(f, run) && k < |run|
    ensures run[k].node < |f.blocks| && 0 < |run[k].stores| <= |f.blocks[run[k].node].insts| + 1
    ensures k > 0 ==> Follows(f, run[k - 1], run[k]) && run[k - 1].node < |f.blocks|
    ensures k > 0 ==> |run[k - 1].stores| == |f.blocks[run[k - 1].node].insts| + 1
    ensures forall i: nat :: i + 1 < |run[k].stores| ==>
              Steps(f.blocks[run[k].node].insts[i], run[k].stores[i], run[k].stores[i + 1])
  {
    assert IsVisit(f, run[k]);
    if k > 0 {
      assert Follows(f, run[k - 1], run[k]);
    }
  }

  /** Consecutive visits are joined by an edge of the graph. */
  lemma FollowsEdge(f: Function, cfg: Cfg, v: Visit, v': Visit)
    requires DistinctIds(f) && IsCfg(f, cfg) && Follows(f, v, v')
    ensures cfg.g.Edge(v.node, v'.node)
  {
    var id := f.blocks[v'.node].id;
    assert id in Successors(f.blocks[v.node].term);
    assert id in cfg.indexOf && f.blocks[cfg.indexOf[id]].id == id;
    assert cfg.indexOf[id] == v'.node;
    assert Branches(f, cfg.indexOf, v.node, v'.node);
  }

  lemma EntryNode(f: Function, cfg: Cfg, run: seq<Visit>)
    requires DistinctIds(f) && IsCfg(f, cfg) && IsRun(f, run)
    ensures run[0].node == cfg.entry < |f.blocks|
  {
    var id := f.blocks[run[0].node].id;
    assert id in cfg.indexOf && f.blocks[cfg.indexOf[id]].id == id;
  }

  /** Every visited block is reachable in the graph. */
  lemma {:induction false} RunReaches(f: Function, cfg: Cfg, run: seq<Visit>, k: nat)
    requires DistinctIds(f) && IsCfg(f, cfg) && IsRun(f, run) && k < |run|
    ensures Reachable(cfg.g, cfg.entry, run[k].node) && run[k].node < |f.blocks|
  {
    if k == 0 {
      EntryNode(f, cfg, run);
      ReachRefl(cfg.g, cfg.entry);
    } else {
      RunReaches(f, cfg, run, k - 1);
      FollowsEdge(f, cfg, run[k - 1], run[k]);
      ReachStep(cfg.g, cfg.entry, run[k - 1].node, run[k].node);
    }
  }

  /** Both ends of a step of a run are reachable, and joined by an edge. */
  lemma EdgeTaken(f: Function, cfg: Cfg, run: seq<Visit>, k: nat)
    requires DistinctIds(f) && IsCfg(f, cfg) && IsRun(f, run) && 0 < k < |run| && Follows(f, run[k - 1], run[k])
    ensures Reachable(cfg.g, cfg.entry, run[k - 1].node) && Reachable(cfg.g, cfg.entry, run[k].node)
    ensures cfg.g.Edge(run[k - 1].node, run[k].node)
  {
    RunReaches(f, cfg, run, k - 1);
    RunReaches(f, cfg, run, k);
    FollowsEdge(f, cfg, run[k - 1], run[k]);
  }

  lemma CfgFacts(f: Function, cfg: Cfg)
    requires IsCfg(f, cfg) && f.blocks != []
    ensures cfg.g.Valid() && cfg.entry < cfg.g.N()
  {
  }

  lemma CfgIds(f: Function, cfg: Cfg, x: nat)
    requires IsCfg(f, cfg) && x < |f.blocks|
    ensures x < |cfg.blocks| && cfg.blocks[x] == f.blocks[x].id
  {
  }
}
