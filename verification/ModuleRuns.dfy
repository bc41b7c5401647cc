/**
 What modules do when they run, and that the collected constraints say it: pointers in registers and in
 memory, in any interleaving of any functions (crates/absint/src/pointsto.rs:577-674).
 */
module ModuleRuns {
  import opened Wrappers
  import opened PointsToRules
  import opened Shards

  // ------------------------------------------------------------ machines

  /** An instruction: its module, its function there, its position. */
  datatype Spot = Spot(u: nat, f: nat, j: nat)

  /** What a pointer points to: the `n`-th object made at a spot, a global or function, or a part at an offset. */
  datatype Place = Object(at: Spot, n: nat) | Global(name: string) | Part(whole: Place, off: nat)

  /** A register of one activation of a function. */
  datatype Var = Var(act: nat, u: nat, f: nat, r: nat)

  /** The registers and memory places that hold a pointer the run knows. */
  datatype Machine = Machine(regs: map<Var, Place>, memory: map<Place, Place>)

  predicate Stands(ms: seq<Unit>, x: Spot) {
    x.u < |ms| && x.f < |ms[x.u].fns| && x.j < |ms[x.u].fns[x.f].insts|
  }

  function InstAt(ms: seq<Unit>, x: Spot): Inst
    requires Stands(ms, x)
  {
    ms[x.u].fns[x.f].insts[x.j]
  }

  function PartAt(p: Place, off: nat): Place {
    if off == 0 then p else Part(p, off)
  }

  /** The pointer an operand is, if it is known. */
  function Holding(v: Value, s: Machine, act: nat, x: Spot): Option<Place> {
    match v
    case PReg(r) => if Var(act, x.u, x.f, r) in s.regs then Some(s.regs[Var(act, x.u, x.f, r)]) else None
    case Symbol(name) => Some(Global(name))
    case Unknown => None
  }

  /** Write a pointer, or overwrite one with something that is not known. */
  function Written<K>(m: map<K, Place>, k: K, p: Option<Place>): map<K, Place> {
    if p.Some? then m[k := p.value] else m - {k}
  }

  ghost predicate Fewer<K>(m: map<K, Place>, n: map<K, Place>) {
    forall k :: k in m ==> k in n && m[k] == n[k]
  }

  function LookedUp<K>(m: map<K, Place>, k: K): Option<Place> {
    if k in m then Some(m[k]) else None
  }

  /**
   One step of an activation. A run that goes through an unknown pointer or uses an unknown offset stops;
   what other instructions and callees write is unknown from then on.
   */
  ghost predicate Step(ms: seq<Unit>, act: nat, x: Spot, s: Machine, t: Machine) {
    Stands(ms, x) &&
    match InstAt(ms, x)
    case Alloc(dst) => exists n: nat :: t == s.(regs := s.regs[Var(act, x.u, x.f, dst) := Object(x, n)])
    case Move(dst, src) => t == s.(regs := Written(s.regs, Var(act, x.u, x.f, dst), Holding(src, s, act, x)))
    case Offset(dst, base, bytes) =>
      bytes.Some? && bytes.value != ANY_OFFSET &&
      (var p := Holding(PReg(base), s, act, x);
       var q := if p.Some? then Some(PartAt(p.value, bytes.value)) else None;
       t == s.(regs := Written(s.regs, Var(act, x.u, x.f, dst), q)))
    case LoadPtr(dst, ptr) =>
      (var p := Holding(PReg(ptr), s, act, x);
       p.Some? &&
       t == s.(regs := Written(s.regs, Var(act, x.u, x.f, dst), LookedUp(s.memory, p.value))))
    case StorePtr(ptr, value) =>
      (var p := Holding(PReg(ptr), s, act, x);
       p.Some? && t == s.(memory := Written(s.memory, p.value, Holding(value, s, act, x))))
    case Call(result, _, _) =>
      Fewer(t.memory, s.memory) && Fewer(t.regs, s.regs) &&
      (result.Some? ==> Var(act, x.u, x.f, result.value) !in t.regs)
    case Other => Fewer(t.regs, s.regs) && Fewer(t.memory, s.memory)
    case FieldPtr(_, _) => false
    case Bulk(_) => false
  }

  /** An initialiser says that the memory place holds the address of the global. */
  ghost predicate Initial(ms: seq<Unit>, l: Place, p: Place) {
    exists u: nat, i: nat :: u < |ms| && i < |ms[u].inits| && InitSays(ms[u], ms[u].inits[i], l, p)
  }

  predicate InitSays(m: Unit, i: Init, l: Place, p: Place) {
    && i.off != ANY_OFFSET && l == PartAt(Global(i.global), i.off)
    && match i
       case FnPtr(_, _, id) => id < |m.fns| && p == Global(m.fns[id].name)
       case GlobalPtr(_, _, target) => p == Global(target)
  }

  ghost predicate Boots(ms: seq<Unit>, s: Machine) {
    s.regs == map[] && forall l: Place :: l in s.memory ==> Initial(ms, l, s.memory[l])
  }

  ghost predicate Moves(ms: seq<Unit>, s: Machine, t: Machine) {
    exists act: nat, x: Spot :: Step(ms, act, x, s, t)
  }

  ghost predicate IsRun(ms: seq<Unit>, run: seq<Machine>) {
    && run != [] && Boots(ms, run[0])
    && forall k: nat, j: nat :: j == k + 1 < |run| ==> Moves(ms, run[k], run[j])
  }

  // ------------------------------------------------------------ what stands for a place

  /** The functions of the modules before `u`. */
  function FnsBefore(ms: seq<Unit>, u: nat): nat
    requires u <= |ms|
  {
    if u == 0 then 0 else FnsBefore(ms, u - 1) + |ms[u - 1].fns|
  }

  function GlobalId(ms: seq<Unit>, u: nat, f: nat): nat {
    if u <= |ms| then FnsBefore(ms, u) + f else f
  }

  /** How many temporaries an instruction takes: one for an object, one for a symbol, one for a bulk copy. */
  function Temps(i: Inst): nat {
    match i
    case Alloc(_) => 1
    case Move(_, src) => if src.Symbol? then 1 else 0
    case StorePtr(_, value) => if value.Symbol? then 1 else 0
    case Bulk(target) => if target.Symbol? then 2 else if target.PReg? then 1 else 0
    case _ => 0
  }

  function TempsIn(insts: seq<Inst>): nat {
    if insts == [] then 0 else TempsIn(insts[..|insts| - 1]) + Temps(insts[|insts| - 1])
  }

  function TempsOf(fns: seq<Fn>): nat {
    if fns == [] then 0 else TempsOf(fns[..|fns| - 1]) + TempsIn(fns[|fns| - 1].insts)
  }

  /** The temporaries of the module before the instruction. */
  function Serial(ms: seq<Unit>, x: Spot): nat {
    if Stands(ms, x) then TempsOf(ms[x.u].fns[..x.f]) + TempsIn(ms[x.u].fns[x.f].insts[..x.j]) else 0
  }

  function Reg(ms: seq<Unit>, x: Spot, r: nat): Desc {
    RegOf(GlobalId(ms, x.u, x.f), r)
  }

  function DescOf(ms: seq<Unit>, p: Place): Desc {
    match p
    case Object(x, _) => Local(x.u, Serial(ms, x))
    case Global(name) => GlobalOf(name)
    case Part(whole, off) => CellOf(DescOf(ms, whole), off)
  }

  /** A field of TOP is TOP, and the field at offset 0 is the object. */
  function Reach(d: Desc, off: nat): Desc {
    if d == Top || off == 0 then d else CellOf(d, off)
  }

  // ------------------------------------------------------------ relations that cover the instructions

  type Rel = iset<(Desc, Desc)>

  /** The operand may be a pointer to `l`. */
  ghost predicate Points(ms: seq<Unit>, rel: Rel, v: Value, x: Spot, l: Desc) {
    match v
    case PReg(r) => (Reg(ms, x, r), l) in rel
    case Symbol(name) => l == GlobalOf(name)
    case Unknown => false
  }

  /** The relation has what the instruction can add to it. */
  ghost predicate Covers(ms: seq<Unit>, rel: Rel, x: Spot) {
    Stands(ms, x) ==>
    match InstAt(ms, x)
    case Alloc(dst) => (Reg(ms, x, dst), Local(x.u, Serial(ms, x))) in rel
    case Move(dst, src) => forall l: Desc :: Points(ms, rel, src, x, l) ==> (Reg(ms, x, dst), l) in rel
    case Offset(dst, base, bytes) =>
      forall l: Desc :: (Reg(ms, x, base), l) in rel ==>
        (Reg(ms, x, dst), Reach(l, if bytes.Some? then bytes.value else ANY_OFFSET)) in rel
    case FieldPtr(dst, base) =>
      forall l: Desc :: (Reg(ms, x, base), l) in rel ==> (Reg(ms, x, dst), Reach(l, ANY_OFFSET)) in rel
    case LoadPtr(dst, ptr) =>
      forall l: Desc, m: Desc :: (Reg(ms, x, ptr), l) in rel && (l, m) in rel ==> (Reg(ms, x, dst), m) in rel
    case StorePtr(ptr, value) =>
      forall l: Desc, m: Desc :: (Reg(ms, x, ptr), l) in rel && Points(ms, rel, value, x, m) ==> (l, m) in rel
    case Call(result, _, _) => result.Some? ==> (Reg(ms, x, result.value), Top) in rel
    case Bulk(_) => true
    case Other => true
  }

  ghost predicate CoversInit(m: Unit, rel: Rel, i: Init) {
    var l := if i.off == ANY_OFFSET then Top else Reach(GlobalOf(i.global), i.off);
    match i
    case FnPtr(_, _, id) => id < |m.fns| ==> (l, GlobalOf(m.fns[id].name)) in rel
    case GlobalPtr(_, _, target) => (l, GlobalOf(target)) in rel
  }

  ghost predicate CoversAll(ms: seq<Unit>, rel: Rel) {
    && (forall x: Spot :: Covers(ms, rel, x))
    && (forall u: nat, i: nat :: u < |ms| && i < |ms[u].inits| ==> CoversInit(ms[u], rel, ms[u].inits[i]))
  }

  // ------------------------------------------------------------ runs stay inside

  ghost predicate RegInside(ms: seq<Unit>, rel: Rel, s: Machine, v: Var) {
    v in s.regs ==> (RegOf(GlobalId(ms, v.u, v.f), v.r), DescOf(ms, s.regs[v])) in rel
  }

  ghost predicate CellInside(ms: seq<Unit>, rel: Rel, s: Machine, l: Place) {
    l in s.memory ==> (DescOf(ms, l), DescOf(ms, s.memory[l])) in rel
  }

  ghost predicate Inside(ms: seq<Unit>, rel: Rel, s: Machine) {
    (forall v: Var :: RegInside(ms, rel, s, v)) && (forall l: Place :: CellInside(ms, rel, s, l))
  }

  lemma ReachPart(ms: seq<Unit>, p: Place, off: nat)
    ensures DescOf(ms, PartAt(p, off)) == Reach(DescOf(ms, p), off) && DescOf(ms, p) != Top
  {
  }

  lemma HoldingInside(ms: seq<Unit>, rel: Rel, v: Value, s: Machine, act: nat, x: Spot)
    requires Inside(ms, rel, s) && Holding(v, s, act, x).Some?
    ensures Points(ms, rel, v, x, DescOf(ms, Holding(v, s, act, x).value))
  {
    if v.PReg? {
      assert RegInside(ms, rel, s, Var(act, x.u, x.f, v.r));
    }
  }

  /** Writing to a register something the relation allows it. */
  lemma WriteReg(ms: seq<Unit>, rel: Rel, s: Machine, v: Var, p: Option<Place>)
    requires Inside(ms, rel, s)
    requires p.Some? ==> (RegOf(GlobalId(ms, v.u, v.f), v.r), DescOf(ms, p.value)) in rel
    ensures Inside(ms, rel, s.(regs := Written(s.regs, v, p)))
  {
    hide DescOf, GlobalId;
    var t := s.(regs := Written(s.regs, v, p));
    forall w: Var ensures RegInside(ms, rel, t, w) {
      assert RegInside(ms, rel, s, w);
    }
    forall l: Place ensures CellInside(ms, rel, t, l) {
      assert CellInside(ms, rel, s, l);
    }
  }

  lemma WriteCell(ms: seq<Unit>, rel: Rel, s: Machine, l: Place, p: Option<Place>)
    requires Inside(ms, rel, s)
    requires p.Some? ==> (DescOf(ms, l), DescOf(ms, p.value)) in rel
    ensures Inside(ms, rel, s.(memory := Written(s.memory, l, p)))
  {
    hide DescOf, GlobalId;
    var t := s.(memory := Written(s.memory, l, p));
    forall w: Var ensures RegInside(ms, rel, t, w) {
      assert RegInside(ms, rel, s, w);
    }
    forall k: Place ensures CellInside(ms, rel, t, k) {
      assert CellInside(ms, rel, s, k);
    }
  }

  lemma FewerInside(ms: seq<Unit>, rel: Rel, s: Machine, t: Machine)
    requires Inside(ms, rel, s) && Fewer(t.regs, s.regs) && Fewer(t.memory, s.memory)
    ensures Inside(ms, rel, t)
  {
    hide DescOf, GlobalId;
    forall w: Var ensures RegInside(ms, rel, t, w) {
      assert RegInside(ms, rel, s, w);
    }
    forall k: Place ensures CellInside(ms, rel, t, k) {
      assert CellInside(ms, rel, s, k);
    }
  }

  lemma LoadInside(ms: seq<Unit>, rel: Rel, s: Machine, act: nat, x: Spot, l: Place)
    requires Inside(ms, rel, s) && Covers(ms, rel, x) && Stands(ms, x) && InstAt(ms, x).LoadPtr? && l in s.memory
    requires Holding(PReg(InstAt(ms, x).ptr), s, act, x) == Some(l)
    ensures (Reg(ms, x, InstAt(ms, x).dst), DescOf(ms, s.memory[l])) in rel
  {
    HoldingInside(ms, rel, PReg(InstAt(ms, x).ptr), s, act, x);
    assert CellInside(ms, rel, s, l);
    hide Inside, DescOf;
  }

  /** A step keeps registers and memory inside any relation that covers the instructions. */
  lemma StepInside(ms: seq<Unit>, rel: Rel, act: nat, x: Spot, s: Machine, t: Machine)
    requires CoversAll(ms, rel) && Inside(ms, rel, s) && Step(ms, act, x, s, t)
    ensures Inside(ms, rel, t)
  {
    assert Covers(ms, rel, x);
    hide Inside, CoversAll, DescOf;
    match InstAt(ms, x)
    case Alloc(dst) =>
      var n: nat :| t == s.(regs := s.regs[Var(act, x.u, x.f, dst) := Object(x, n)]);
      assert DescOf(ms, Object(x, n)) == Local(x.u, Serial(ms, x)) by { ObjectDesc(ms, x, n); }
      WriteReg(ms, rel, s, Var(act, x.u, x.f, dst), Some(Object(x, n)));
    case Move(dst, src) =>
      var p := Holding(src, s, act, x);
      if p.Some? {
        HoldingInside(ms, rel, src, s, act, x);
      }
      WriteReg(ms, rel, s, Var(act, x.u, x.f, dst), p);
    case Offset(dst, base, bytes) =>
      var p := Holding(PReg(base), s, act, x);
      if p.Some? {
        HoldingInside(ms, rel, PReg(base), s, act, x);
        ReachPart(ms, p.value, bytes.value);
      }
      WriteReg(ms, rel, s, Var(act, x.u, x.f, dst), if p.Some? then Some(PartAt(p.value, bytes.value)) else None);
    case LoadPtr(dst, ptr) =>
      var p := Holding(PReg(ptr), s, act, x);
      if p.value in s.memory {
        LoadInside(ms, rel, s, act, x, p.value);
      }
      WriteReg(ms, rel, s, Var(act, x.u, x.f, dst), LookedUp(s.memory, p.value));
    case StorePtr(ptr, value) =>
      var p, q := Holding(PReg(ptr), s, act, x), Holding(value, s, act, x);
      HoldingInside(ms, rel, PReg(ptr), s, act, x);
      if q.Some? {
        HoldingInside(ms, rel, value, s, act, x);
      }
      WriteCell(ms, rel, s, p.value, q);
    case Call(_, _, _) => FewerInside(ms, rel, s, t);
    case Other => FewerInside(ms, rel, s, t);
  }

  lemma ObjectDesc(ms: seq<Unit>, x: Spot, n: nat)
    ensures DescOf(ms, Object(x, n)) == Local(x.u, Serial(ms, x))
  {
  }

  lemma BootInside(ms: seq<Unit>, rel: Rel, s: Machine)
    requires CoversAll(ms, rel) && Boots(ms, s)
    ensures Inside(ms, rel, s)
  {
    forall l: Place ensures CellInside(ms, rel, s, l) {
      if l in s.memory {
        assert Initial(ms, l, s.memory[l]);
        var u: nat, i: nat :| u < |ms| && i < |ms[u].inits| && InitSays(ms[u], ms[u].inits[i], l, s.memory[l]);
        assert CoversInit(ms[u], rel, ms[u].inits[i]);
        ReachPart(ms, Global(ms[u].inits[i].global), ms[u].inits[i].off);
      }
    }
  }

  /** Whatever a run keeps in a register or in memory is in every relation that covers the instructions. */
  lemma {:induction false} RunInside(ms: seq<Unit>, rel: Rel, run: seq<Machine>, k: nat)
    requires CoversAll(ms, rel) && IsRun(ms, run) && k < |run|
    ensures Inside(ms, rel, run[k])
  {
    hide CoversAll, Inside, Boots, Step;
    if k == 0 {
      BootInside(ms, rel, run[0]);
    } else {
      var i := k - 1;
      RunInside(ms, rel, run, i);
      assert Moves(ms, run[i], run[k]);
      var act: nat, x: Spot :| Step(ms, act, x, run[i], run[k]);
      StepInside(ms, rel, act, x, run[i], run[k]);
    }
  }
}
