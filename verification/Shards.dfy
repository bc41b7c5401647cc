/**
 What the points-to builder collects from modules, and merging what was
 collected from separate shards (crates/absint/src/pointsto.rs:530-775).
 */
module Shards {
  import opened Wrappers
  import opened PointsToRules

  // ------------------------------------------------------------ modules

  datatype Value = PReg(r: nat) | Symbol(name: string) | Unknown

  datatype Callee = Direct(index: nat) | Named(name: string) | Indirect

  /** The instructions that say something about pointers; an offset that is no constant is `None`. */
  datatype Inst =
    | Alloc(dst: nat)
    | Move(dst: nat, src: Value)
    | Offset(dst: nat, base: nat, bytes: Option<nat>)
    | FieldPtr(dst: nat, base: nat)
    | LoadPtr(dst: nat, ptr: nat)
    | StorePtr(ptr: nat, value: Value)
    | Bulk(target: Value)
    | Call(result: Option<nat>, callee: Callee, args: seq<Value>)
    | Other

  datatype Fn = Fn(name: string, internal: bool, params: seq<nat>, insts: seq<Inst>)

  /** A constant initialiser: the field of a global that holds the address of a function or of another global. */
  datatype Init = FnPtr(global: string, off: nat, id: nat) | GlobalPtr(global: string, off: nat, target: string)

  /** A module; its functions are known by position. */
  datatype Unit = Unit(fns: seq<Fn>, inits: seq<Init>)

  // ------------------------------------------------------------ what a node stands for

  /** Registers by global function id, globals by name, cells by object and offset, temporaries by module and serial. */
  datatype Desc =
    | Top
    | RegOf(g: nat, r: nat)
    | GlobalOf(name: string)
    | CellOf(obj: Desc, off: nat)
    | Local(unit: nat, serial: nat)

  datatype Lists<N> = Lists(addr: seq<(N, N)>, copies: seq<(N, N)>, geps: seq<(N, N, nat)>, loads: seq<(N, N)>,
                            stores: seq<(N, N)>)

  function Nothing<N>(): Lists<N> {
    Lists([], [], [], [], [])
  }

  function Plus<N>(a: Lists<N>, b: Lists<N>): Lists<N> {
    Lists(a.addr + b.addr, a.copies + b.copies, a.geps + b.geps, a.loads + b.loads, a.stores + b.stores)
  }

  function AddrOf(p: Desc, o: Desc): Lists<Desc> {
    Lists([(p, o)], [], [], [], [])
  }

  function CopyOf(d: Desc, s: Desc): Lists<Desc> {
    Lists([], [(d, s)], [], [], [])
  }

  function GepOf(d: Desc, s: Desc, off: nat): Lists<Desc> {
    Lists([], [], [(d, s, off)], [], [])
  }

  function LoadOf(d: Desc, s: Desc): Lists<Desc> {
    Lists([], [], [], [(d, s)], [])
  }

  function StoreOf(v: Desc, p: Desc): Lists<Desc> {
    Lists([], [], [], [], [(v, p)])
  }

  /** The node a field resolves to. */
  function FieldOf(o: Desc, off: nat): Desc {
    if o == Top || off == ANY_OFFSET then Top else if off == 0 then o else CellOf(o, off)
  }

  // ------------------------------------------------------------ constraints of a module

  /** The pointer value of an operand, the constraints that set it up, and the next serial. */
  function Operand(v: Value, g: nat, unit: nat, k: nat): (Option<Desc>, Lists<Desc>, nat) {
    match v
    case PReg(r) => (Some(RegOf(g, r)), Nothing(), k)
    case Symbol(s) => (Some(Local(unit, k)), AddrOf(Local(unit, k), GlobalOf(s)), k + 1)
    case Unknown => (None, Nothing(), k)
  }

  function OfInst(i: Inst, g: nat, unit: nat, k: nat): (Lists<Desc>, nat) {
    match i
    case Alloc(dst) => (AddrOf(RegOf(g, dst), Local(unit, k)), k + 1)
    case Move(dst, src) =>
      var (v, ls, k') := Operand(src, g, unit, k);
      if v.Some? then (Plus(ls, CopyOf(RegOf(g, dst), v.value)), k') else (Nothing(), k)
    case Offset(dst, base, bytes) =>
      (GepOf(RegOf(g, dst), RegOf(g, base), if bytes.Some? then bytes.value else ANY_OFFSET), k)
    case FieldPtr(dst, base) => (GepOf(RegOf(g, dst), RegOf(g, base), ANY_OFFSET), k)
    case LoadPtr(dst, ptr) => (LoadOf(RegOf(g, dst), RegOf(g, ptr)), k)
    case StorePtr(ptr, value) =>
      var (v, ls, k') := Operand(value, g, unit, k);
      if v.Some? then (Plus(ls, StoreOf(v.value, RegOf(g, ptr))), k') else (Nothing(), k)
    case Bulk(target) =>
      var (p, ls, k') := Operand(target, g, unit, k);
      if p.Some? then (Plus(ls, GepOf(Local(unit, k'), p.value, ANY_OFFSET)), k' + 1) else (Nothing(), k)
    case Call(result, _, _) => (if result.Some? then AddrOf(RegOf(g, result.value), Top) else Nothing(), k)
    case Other => (Nothing(), k)
  }

  function OfInsts(insts: seq<Inst>, g: nat, unit: nat, k: nat): (Lists<Desc>, nat) {
    if insts == [] then (Nothing(), k)
    else
      var (ls, k') := OfInsts(insts[..|insts| - 1], g, unit, k);
      var (one, k'') := OfInst(insts[|insts| - 1], g, unit, k');
      (Plus(ls, one), k'')
  }

  /** The constraints of functions numbered from `base`. */
  function OfFns(fns: seq<Fn>, base: nat, unit: nat): (Lists<Desc>, nat) {
    if fns == [] then (Nothing(), 0)
    else
      var n := |fns| - 1;
      var (ls, k) := OfFns(fns[..n], base, unit);
      var (one, k') := OfInsts(fns[n].insts, base + n, unit, k);
      (Plus(ls, one), k')
  }

  /** The target of an initialiser, if it is there: a function pointer must name a function of the module. */
  function TargetName(i: Init, fns: seq<Fn>): Option<string> {
    match i
    case FnPtr(_, _, id) => if id < |fns| then Some(fns[id].name) else None
    case GlobalPtr(_, _, target) => Some(target)
  }

  function OfInit(i: Init, fns: seq<Fn>): Lists<Desc> {
    var t := TargetName(i, fns);
    if t.Some? then AddrOf(FieldOf(GlobalOf(i.global), i.off), GlobalOf(t.value)) else Nothing()
  }

  function OfInits(inits: seq<Init>, fns: seq<Fn>): Lists<Desc> {
    if inits == [] then Nothing()
    else Plus(OfInits(inits[..|inits| - 1], fns), OfInit(inits[|inits| - 1], fns))
  }

  /** All constraints of a module whose functions are numbered from `base`. */
  function OfUnit(m: Unit, base: nat, unit: nat): Lists<Desc> {
    Plus(OfInits(m.inits, m.fns), OfFns(m.fns, base, unit).0)
  }

  /** An initialiser at the unknown offset poisons its global. */
  function PoisonedBy(inits: seq<Init>, fns: seq<Fn>): set<string> {
    set i: Init | i in inits && i.off == ANY_OFFSET && TargetName(i, fns).Some? :: i.global
  }

  // ------------------------------------------------------------ tables keyed by function id or name

  /** A call whose callee is resolved later; `Known` is a global function id. */
  datatype Target = Known(g: nat) | ByName(name: string) | Nobody

  datatype Deferred = Deferred(caller: nat, target: Target, args: seq<Value>)

  datatype Tables = Tables(next: nat, params: map<nat, seq<nat>>, meta: map<nat, (string, bool)>,
                           byName: map<string, nat>,
                           fnNames: set<string>, constGlobals: set<string>, deferred: seq<Deferred>)

  function TargetOf(c: Callee, base: nat): Target {
    match c
    case Direct(i) => Known(base + i)
    case Named(n) => ByName(n)
    case Indirect => Nobody
  }

  function DeferredOf(i: Inst, g: nat, base: nat): seq<Deferred> {
    match i
    case Call(_, callee, args) => [Deferred(g, TargetOf(callee, base), args)]
    case _ => []
  }

  function DeferredIn(insts: seq<Inst>, g: nat, base: nat): seq<Deferred> {
    if insts == [] then []
    else DeferredIn(insts[..|insts| - 1], g, base) + DeferredOf(insts[|insts| - 1], g, base)
  }

  function DeferredAll(fns: seq<Fn>, base: nat): seq<Deferred> {
    if fns == [] then []
    else DeferredAll(fns[..|fns| - 1], base) + DeferredIn(fns[|fns| - 1].insts, base + |fns| - 1, base)
  }

  /** The first definition of an external name wins. */
  function NameEntered(names: map<string, nat>, f: Fn, g: nat): map<string, nat> {
    if f.internal || f.name in names then names else names[f.name := g]
  }

  /** Enter a function: its parameters and name, and its id unless an earlier function has the external name. */
  function EnterFn(t: Tables, f: Fn, g: nat): Tables {
    t.(params := t.params[g := f.params], meta := t.meta[g := (f.name, f.internal)], fnNames := t.fnNames + {f.name},
       byName := NameEntered(t.byName, f, g))
  }

  function EnterFns(t: Tables, fns: seq<Fn>, base: nat): Tables {
    if fns == [] then t
    else EnterFn(EnterFns(t, fns[..|fns| - 1], base), fns[|fns| - 1], base + |fns| - 1)
  }

  /** An initialiser that has its target makes its global known; a function target is a function name. */
  function EnterInit(t: Tables, i: Init, fns: seq<Fn>): Tables {
    var target := TargetName(i, fns);
    if target.None? then t
    else t.(constGlobals := t.constGlobals + {i.global}, fnNames := if i.FnPtr? then t.fnNames + {target.value}
            else t.fnNames)
  }

  function EnterInits(t: Tables, inits: seq<Init>, fns: seq<Fn>): Tables {
    if inits == [] then t else EnterInit(EnterInits(t, inits[..|inits| - 1], fns), inits[|inits| - 1], fns)
  }

  function PushTables(t: Tables, m: Unit): Tables {
    var u := EnterInits(EnterFns(t, m.fns, t.next), m.inits, m.fns);
    u.(deferred := u.deferred + DeferredAll(m.fns, t.next), next := t.next + |m.fns|)
  }

  // ------------------------------------------------------------ the relation

  /** Everything the builder knows, with nodes replaced by what they stand for. */
  datatype Relation = Relation(lists: Lists<Desc>, poisoned: set<string>, tables: Tables, units: nat)

  const EMPTY: Relation := Relation(Nothing(), {}, Tables(0, map[], map[], map[], {}, {}, []), 0)

  /** Fold one module in. */
  function Pushed(r: Relation, m: Unit): Relation {
    Relation(Plus(r.lists, OfUnit(m, r.tables.next, r.units)), r.poisoned + PoisonedBy(m.inits, m.fns),
             PushTables(r.tables, m), r.units + 1)
  }

  function PushedAll(r: Relation, ms: seq<Unit>): Relation {
    if ms == [] then r else Pushed(PushedAll(r, ms[..|ms| - 1]), ms[|ms| - 1])
  }

  // ------------------------------------------------------------ merging

  /** What a node of a later shard stands for in the whole: function ids and modules move up, globals stay. */
  function Shift(d: Desc, gbase: nat, ubase: nat): Desc {
    match d
    case Top => Top
    case RegOf(g, r) => RegOf(g + gbase, r)
    case GlobalOf(n) => GlobalOf(n)
    case CellOf(o, off) => CellOf(Shift(o, gbase, ubase), off)
    case Local(u, k) => Local(u + ubase, k)
  }

  function ShiftPairs(l: seq<(Desc, Desc)>, gbase: nat, ubase: nat): seq<(Desc, Desc)> {
    seq(|l|, i requires 0 <= i < |l| => (Shift(l[i].0, gbase, ubase), Shift(l[i].1, gbase, ubase)))
  }

  function ShiftTriples(l: seq<(Desc, Desc, nat)>, gbase: nat, ubase: nat): seq<(Desc, Desc, nat)> {
    seq(|l|, i requires 0 <= i < |l| => (Shift(l[i].0, gbase, ubase), Shift(l[i].1, gbase, ubase), l[i].2))
  }

  function ShiftLists(a: Lists<Desc>, gbase: nat, ubase: nat): Lists<Desc> {
    Lists(ShiftPairs(a.addr, gbase, ubase), ShiftPairs(a.copies, gbase, ubase), ShiftTriples(a.geps, gbase, ubase),
          ShiftPairs(a.loads, gbase, ubase), ShiftPairs(a.stores, gbase, ubase))
  }

  function ShiftTarget(t: Target, gbase: nat): Target {
    if t.Known? then Known(t.g + gbase) else t
  }

  function ShiftDeferred(ds: seq<Deferred>, gbase: nat): seq<Deferred> {
    seq(|ds|, i requires 0 <= i < |ds| => Deferred(ds[i].caller + gbase, ShiftTarget(ds[i].target, gbase), ds[i].args))
  }

  function Raised(ids: set<nat>, base: nat): set<nat> {
    set g: nat | g in ids :: g + base
  }

  /** A table with its function ids moved up. */
  function Rebased<T>(m: map<nat, T>, base: nat): map<nat, T> {
    map g: nat | g in Raised(m.Keys, base) :: m[g - base]
  }

  /** Names of the later shard, unless an earlier one has them. */
  function Names(t: map<string, nat>, u: map<string, nat>, base: nat): map<string, nat> {
    (map name | name in u :: u[name] + base) + t
  }

  function MergeTables(t: Tables, u: Tables): Tables {
    Tables(t.next + u.next,
           t.params + Rebased(u.params, t.next), t.meta + Rebased(u.meta, t.next),
           Names(t.byName, u.byName, t.next),
           t.fnNames + u.fnNames, t.constGlobals + u.constGlobals, t.deferred + ShiftDeferred(u.deferred, t.next))
  }

  /** Fold in a relation built over later modules. */
  function Merged(r: Relation, s: Relation): Relation {
    Relation(Plus(r.lists, ShiftLists(s.lists, r.tables.next, r.units)), r.poisoned + s.poisoned,
             MergeTables(r.tables, s.tables), r.units + s.units)
  }

  // ------------------------------------------------------------ constraints move with their numbers

  lemma PlusAssoc<N>(a: Lists<N>, b: Lists<N>, c: Lists<N>)
    ensures Plus(Plus(a, b), c) == Plus(a, Plus(b, c)) && Plus(a, Nothing()) == a && Plus(Nothing(), a) == a
  {
    assert a.addr + b.addr + c.addr == a.addr + (b.addr + c.addr);
    assert a.copies + b.copies + c.copies == a.copies + (b.copies + c.copies);
    assert a.geps + b.geps + c.geps == a.geps + (b.geps + c.geps);
    assert a.loads + b.loads + c.loads == a.loads + (b.loads + c.loads);
    assert a.stores + b.stores + c.stores == a.stores + (b.stores + c.stores);
  }

  lemma ShiftPlus(a: Lists<Desc>, b: Lists<Desc>, gb: nat, ub: nat)
    ensures ShiftLists(Plus(a, b), gb, ub) == Plus(ShiftLists(a, gb, ub), ShiftLists(b, gb, ub))
    ensures ShiftLists(Nothing(), gb, ub) == Nothing()
  {
    hide Shift;
    assert ShiftPairs(a.addr + b.addr, gb, ub) == ShiftPairs(a.addr, gb, ub) + ShiftPairs(b.addr, gb, ub);
    assert ShiftPairs(a.copies + b.copies, gb, ub) == ShiftPairs(a.copies, gb, ub) + ShiftPairs(b.copies, gb, ub);
    assert ShiftTriples(a.geps + b.geps, gb, ub) == ShiftTriples(a.geps, gb, ub) + ShiftTriples(b.geps, gb, ub);
    assert ShiftPairs(a.loads + b.loads, gb, ub) == ShiftPairs(a.loads, gb, ub) + ShiftPairs(b.loads, gb, ub);
    assert ShiftPairs(a.stores + b.stores, gb, ub) == ShiftPairs(a.stores, gb, ub) + ShiftPairs(b.stores, gb, ub);
  }

  lemma ShiftOnes(p: Desc, o: Desc, off: nat, gb: nat, ub: nat)
    ensures ShiftLists(AddrOf(p, o), gb, ub) == AddrOf(Shift(p, gb, ub), Shift(o, gb, ub))
    ensures ShiftLists(CopyOf(p, o), gb, ub) == CopyOf(Shift(p, gb, ub), Shift(o, gb, ub))
    ensures ShiftLists(GepOf(p, o, off), gb, ub) == GepOf(Shift(p, gb, ub), Shift(o, gb, ub), off)
    ensures ShiftLists(LoadOf(p, o), gb, ub) == LoadOf(Shift(p, gb, ub), Shift(o, gb, ub))
    ensures ShiftLists(StoreOf(p, o), gb, ub) == StoreOf(Shift(p, gb, ub), Shift(o, gb, ub))
  {
    hide Shift;
  }

  function Moved(d: Option<Desc>, gb: nat, ub: nat): Option<Desc> {
    if d.Some? then Some(Shift(d.value, gb, ub)) else None
  }

  lemma OperandMoves(v: Value, g: nat, unit: nat, k: nat, gb: nat, ub: nat)
    ensures var (d, ls, k') := Operand(v, g, unit, k);
            Operand(v, g + gb, unit + ub, k) == (Moved(d, gb, ub), ShiftLists(ls, gb, ub), k')
  {
    ShiftPlus(Nothing(), Nothing(), gb, ub);
    if v.Symbol? {
      ShiftOnes(Local(unit, k), GlobalOf(v.name), 0, gb, ub);
    }
    hide ShiftLists;
  }

  lemma InstMoves(i: Inst, g: nat, unit: nat, k: nat, gb: nat, ub: nat)
    ensures OfInst(i, g + gb, unit + ub, k) == (ShiftLists(OfInst(i, g, unit, k).0, gb, ub), OfInst(i, g, unit, k).1)
  {
    ShiftPlus(Nothing(), Nothing(), gb, ub);
    match i
    case Alloc(dst) => ShiftOnes(RegOf(g, dst), Local(unit, k), 0, gb, ub); hide ShiftLists;
    case Move(_, _) => MoveMoves(i, g, unit, k, gb, ub);
    case Offset(dst, base, bytes) =>
      ShiftOnes(RegOf(g, dst), RegOf(g, base), if bytes.Some? then bytes.value else ANY_OFFSET, gb, ub);
      hide ShiftLists;
    case FieldPtr(dst, base) => ShiftOnes(RegOf(g, dst), RegOf(g, base), ANY_OFFSET, gb, ub); hide ShiftLists;
    case LoadPtr(dst, ptr) => ShiftOnes(RegOf(g, dst), RegOf(g, ptr), 0, gb, ub); hide ShiftLists;
    case StorePtr(_, _) => StoreMoves(i, g, unit, k, gb, ub);
    case Bulk(_) => BulkMoves(i, g, unit, k, gb, ub);
    case Call(result, _, _) =>
      if result.Some? {
        ShiftOnes(RegOf(g, result.value), Top, 0, gb, ub);
      }
      hide ShiftLists;
    case Other => hide ShiftLists;
  }

  lemma MoveMoves(i: Inst, g: nat, unit: nat, k: nat, gb: nat, ub: nat)
    requires i.Move?
    ensures OfInst(i, g + gb, unit + ub, k) == (ShiftLists(OfInst(i, g, unit, k).0, gb, ub), OfInst(i, g, unit, k).1)
  {
    var v := i.src;
    OperandMoves(v, g, unit, k, gb, ub);
    var (d, ls, k') := Operand(v, g, unit, k);
    if d.Some? {
      ShiftPlus(ls, CopyOf(RegOf(g, i.dst), d.value), gb, ub);
      ShiftOnes(RegOf(g, i.dst), d.value, 0, gb, ub);
    } else {
      ShiftPlus(Nothing(), Nothing(), gb, ub);
    }
    hide ShiftLists, Operand, Plus, CopyOf, StoreOf, GepOf;
  }

  lemma StoreMoves(i: Inst, g: nat, unit: nat, k: nat, gb: nat, ub: nat)
    requires i.StorePtr?
    ensures OfInst(i, g + gb, unit + ub, k) == (ShiftLists(OfInst(i, g, unit, k).0, gb, ub), OfInst(i, g, unit, k).1)
  {
    var v := i.value;
    OperandMoves(v, g, unit, k, gb, ub);
    var (d, ls, k') := Operand(v, g, unit, k);
    if d.Some? {
      ShiftPlus(ls, StoreOf(d.value, RegOf(g, i.ptr)), gb, ub);
      ShiftOnes(d.value, RegOf(g, i.ptr), 0, gb, ub);
    } else {
      ShiftPlus(Nothing(), Nothing(), gb, ub);
    }
    hide ShiftLists, Operand, Plus, CopyOf, StoreOf, GepOf;
  }

  lemma BulkMoves(i: Inst, g: nat, unit: nat, k: nat, gb: nat, ub: nat)
    requires i.Bulk?
    ensures OfInst(i, g + gb, unit + ub, k) == (ShiftLists(OfInst(i, g, unit, k).0, gb, ub), OfInst(i, g, unit, k).1)
  {
    var v := i.target;
    OperandMoves(v, g, unit, k, gb, ub);
    var (d, ls, k') := Operand(v, g, unit, k);
    if d.Some? {
      ShiftPlus(ls, GepOf(Local(unit, k'), d.value, ANY_OFFSET), gb, ub);
      ShiftOnes(Local(unit, k'), d.value, ANY_OFFSET, gb, ub);
    } else {
      ShiftPlus(Nothing(), Nothing(), gb, ub);
    }
    hide ShiftLists, Operand, Plus, CopyOf, StoreOf, GepOf;
  }

  lemma {:induction false} InstsMove(insts: seq<Inst>, g: nat, unit: nat, k: nat, gb: nat, ub: nat)
    ensures OfInsts(insts, g + gb, unit + ub, k) ==
            (ShiftLists(OfInsts(insts, g, unit, k).0, gb, ub), OfInsts(insts, g, unit, k).1)
  {
    hide OfInst, Plus, ShiftLists;
    if insts == [] {
      ShiftPlus(Nothing(), Nothing(), gb, ub);
    } else {
      var n := |insts| - 1;
      InstsMove(insts[..n], g, unit, k, gb, ub);
      var (ls, k') := OfInsts(insts[..n], g, unit, k);
      InstMoves(insts[n], g, unit, k', gb, ub);
      ShiftPlus(ls, OfInst(insts[n], g, unit, k').0, gb, ub);
    }
  }

  lemma {:induction false} FnsMove(fns: seq<Fn>, base: nat, unit: nat, gb: nat, ub: nat)
    ensures OfFns(fns, base + gb, unit + ub) == (ShiftLists(OfFns(fns, base, unit).0, gb, ub), OfFns(fns, base, unit).1)
  {
    hide OfInsts, Plus, ShiftLists;
    if fns == [] {
      ShiftPlus(Nothing(), Nothing(), gb, ub);
    } else {
      var n := |fns| - 1;
      FnsMove(fns[..n], base, unit, gb, ub);
      var (ls, k) := OfFns(fns[..n], base, unit);
      InstsMove(fns[n].insts, base + n, unit, k, gb, ub);
      assert base + n + gb == base + gb + n;
      ShiftPlus(ls, OfInsts(fns[n].insts, base + n, unit, k).0, gb, ub);
    }
  }

  /** Initialisers speak of globals only, so they stay as they are. */
  lemma {:induction false} InitsStay(inits: seq<Init>, fns: seq<Fn>, gb: nat, ub: nat)
    ensures ShiftLists(OfInits(inits, fns), gb, ub) == OfInits(inits, fns)
  {
    hide OfInit, Plus, ShiftLists;
    if inits == [] {
      ShiftPlus(Nothing(), Nothing(), gb, ub);
    } else {
      var n := |inits| - 1;
      InitsStay(inits[..n], fns, gb, ub);
      InitStays(inits[n], fns, gb, ub);
      ShiftPlus(OfInits(inits[..n], fns), OfInit(inits[n], fns), gb, ub);
    }
  }

  lemma InitStays(i: Init, fns: seq<Fn>, gb: nat, ub: nat)
    ensures ShiftLists(OfInit(i, fns), gb, ub) == OfInit(i, fns)
  {
    ShiftPlus(Nothing(), Nothing(), gb, ub);
    var t := TargetName(i, fns);
    if t.Some? {
      var cell := FieldOf(GlobalOf(i.global), i.off);
      ShiftOnes(cell, GlobalOf(t.value), 0, gb, ub);
      assert Shift(cell, gb, ub) == cell;
    }
  }

  /** The constraints of a module move with the function and module numbers it gets. */
  lemma UnitMoves(m: Unit, base: nat, unit: nat, gb: nat, ub: nat)
    ensures OfUnit(m, base + gb, unit + ub) == ShiftLists(OfUnit(m, base, unit), gb, ub)
  {
    hide OfInits, OfFns, ShiftLists, Plus;
    InitsStay(m.inits, m.fns, gb, ub);
    FnsMove(m.fns, base, unit, gb, ub);
    ShiftPlus(OfInits(m.inits, m.fns), OfFns(m.fns, base, unit).0, gb, ub);
  }

  // ------------------------------------------------------------ tables move with their numbers

  lemma RebasedHas<T>(m: map<nat, T>, base: nat)
    ensures forall g: nat :: g in Rebased(m, base) <==> g >= base && g - base in m
    ensures forall g: nat :: g in Rebased(m, base) ==> Rebased(m, base)[g] == m[g - base]
  {
    forall g: nat | g >= base && g - base in m ensures g in Rebased(m, base) {
      assert g - base + base == g;
    }
  }

  lemma RebasedPut<T>(a: map<nat, T>, m: map<nat, T>, base: nat, g: nat, v: T)
    ensures a + Rebased(m[g := v], base) == (a + Rebased(m, base))[g + base := v]
  {
    RebasedHas(m, base);
    RebasedHas(m[g := v], base);
    hide Rebased;
  }

  lemma NamesHas(t: map<string, nat>, u: map<string, nat>, base: nat, name: string)
    ensures name in Names(t, u, base) <==> name in t || name in u
    ensures name in t ==> Names(t, u, base)[name] == t[name]
    ensures name !in t && name in u ==> Names(t, u, base)[name] == u[name] + base
  {
  }

  lemma NamesPut(t: map<string, nat>, u: map<string, nat>, base: nat, name: string, g: nat)
    requires name !in u
    ensures Names(t, u[name := g], base) == if name in t then Names(t, u, base) else Names(t, u, base)[name := g + base]
  {
    var all, all' := Names(t, u, base), Names(t, u[name := g], base);
    if name in t {
      assert all' == all;
    } else {
      assert all' == all[name := g + base];
    }
  }

  lemma NameMoves(t: map<string, nat>, u: map<string, nat>, base: nat, f: Fn, g: nat)
    ensures NameEntered(Names(t, u, base), f, g + base) == Names(t, NameEntered(u, f, g), base)
  {
    NamesHas(t, u, base, f.name);
    if f.name !in u {
      NamesPut(t, u, base, f.name, g);
    }
    hide Names;
  }

  lemma FnMoves(t: Tables, u: Tables, f: Fn, g: nat)
    ensures EnterFn(MergeTables(t, u), f, g + t.next) == MergeTables(t, EnterFn(u, f, g))
  {
    RebasedPut(t.params, u.params, t.next, g, f.params);
    RebasedPut(t.meta, u.meta, t.next, g, (f.name, f.internal));
    NameMoves(t.byName, u.byName, t.next, f, g);
    hide Rebased, ShiftDeferred, Names, NameEntered;
    assert t.fnNames + u.fnNames + {f.name} == t.fnNames + (u.fnNames + {f.name});
  }

  lemma {:induction false} FnsEntered(t: Tables, u: Tables, fns: seq<Fn>, base: nat)
    ensures EnterFns(MergeTables(t, u), fns, base + t.next) == MergeTables(t, EnterFns(u, fns, base))
    ensures EnterFns(u, fns, base).next == u.next && EnterFns(u, fns, base).deferred == u.deferred
  {
    hide MergeTables;
    if fns != [] {
      var n := |fns| - 1;
      FnsEntered(t, u, fns[..n], base);
      FnMoves(t, EnterFns(u, fns[..n], base), fns[n], base + n);
      assert base + n + t.next == base + t.next + n;
    }
  }

  lemma InitMoves(t: Tables, u: Tables, i: Init, fns: seq<Fn>)
    ensures EnterInit(MergeTables(t, u), i, fns) == MergeTables(t, EnterInit(u, i, fns))
  {
    hide Rebased, Names, ShiftDeferred;
    var target := TargetName(i, fns);
    assert t.constGlobals + u.constGlobals + {i.global} == t.constGlobals + (u.constGlobals + {i.global});
    if target.Some? {
      assert t.fnNames + u.fnNames + {target.value} == t.fnNames + (u.fnNames + {target.value});
    }
  }

  lemma {:induction false} InitsEntered(t: Tables, u: Tables, inits: seq<Init>, fns: seq<Fn>)
    ensures EnterInits(MergeTables(t, u), inits, fns) == MergeTables(t, EnterInits(u, inits, fns))
    ensures EnterInits(u, inits, fns).next == u.next && EnterInits(u, inits, fns).deferred == u.deferred
  {
    hide MergeTables;
    if inits != [] {
      var n := |inits| - 1;
      InitsEntered(t, u, inits[..n], fns);
      InitMoves(t, EnterInits(u, inits[..n], fns), inits[n], fns);
    }
  }

  lemma ShiftDeferredPlus(a: seq<Deferred>, b: seq<Deferred>, gb: nat)
    ensures ShiftDeferred(a + b, gb) == ShiftDeferred(a, gb) + ShiftDeferred(b, gb)
  {
  }

  lemma DeferredMoves(i: Inst, g: nat, base: nat, gb: nat)
    ensures DeferredOf(i, g + gb, base + gb) == ShiftDeferred(DeferredOf(i, g, base), gb)
  {
  }

  lemma {:induction false} DeferredInMoves(insts: seq<Inst>, g: nat, base: nat, gb: nat)
    ensures DeferredIn(insts, g + gb, base + gb) == ShiftDeferred(DeferredIn(insts, g, base), gb)
  {
    hide DeferredOf;
    if insts != [] {
      var n := |insts| - 1;
      DeferredInMoves(insts[..n], g, base, gb);
      DeferredMoves(insts[n], g, base, gb);
      ShiftDeferredPlus(DeferredIn(insts[..n], g, base), DeferredOf(insts[n], g, base), gb);
      hide ShiftDeferred;
    }
  }

  lemma {:induction false} DeferredAllMoves(fns: seq<Fn>, base: nat, gb: nat)
    ensures DeferredAll(fns, base + gb) == ShiftDeferred(DeferredAll(fns, base), gb)
  {
    hide DeferredIn;
    if fns != [] {
      var n := |fns| - 1;
      DeferredAllMoves(fns[..n], base, gb);
      DeferredInMoves(fns[n].insts, base + n, base, gb);
      assert base + n + gb == base + gb + n;
      ShiftDeferredPlus(DeferredAll(fns[..n], base), DeferredIn(fns[n].insts, base + n, base), gb);
      hide ShiftDeferred;
    }
  }

  lemma TablesMove(t: Tables, u: Tables, m: Unit)
    ensures PushTables(MergeTables(t, u), m) == MergeTables(t, PushTables(u, m))
  {
    var v := EnterFns(u, m.fns, u.next);
    var w := EnterInits(v, m.inits, m.fns);
    FnsEntered(t, u, m.fns, u.next);
    InitsEntered(t, v, m.inits, m.fns);
    DeferredAllMoves(m.fns, u.next, t.next);
    ShiftDeferredPlus(u.deferred, DeferredAll(m.fns, u.next), t.next);
    hide EnterFns, EnterInits, DeferredAll, ShiftDeferred, Rebased, Names;
    assert u.next + t.next == t.next + u.next;
    assert MergeTables(t, u).deferred + ShiftDeferred(DeferredAll(m.fns, u.next), t.next) ==
           t.deferred + ShiftDeferred(u.deferred + DeferredAll(m.fns, u.next), t.next);
  }

  // ------------------------------------------------------------ merging is pushing in order

  lemma ListsMerge(a: Lists<Desc>, b: Lists<Desc>, m: Unit, base: nat, unit: nat, gb: nat, ub: nat)
    ensures Plus(Plus(a, ShiftLists(b, gb, ub)), OfUnit(m, gb + base, ub + unit)) ==
            Plus(a, ShiftLists(Plus(b, OfUnit(m, base, unit)), gb, ub))
  {
    UnitMoves(m, base, unit, gb, ub);
    assert base + gb == gb + base && unit + ub == ub + unit;
    ShiftPlus(b, OfUnit(m, base, unit), gb, ub);
    PlusAssoc(a, ShiftLists(b, gb, ub), OfUnit(m, gb + base, ub + unit));
    hide OfUnit, ShiftLists, Plus;
  }

  lemma PushedIs(r: Relation, m: Unit, t: Relation)
    requires t.lists == Plus(r.lists, OfUnit(m, r.tables.next, r.units))
    requires t.poisoned == r.poisoned + PoisonedBy(m.inits, m.fns)
    requires t.tables == PushTables(r.tables, m) && t.units == r.units + 1
    ensures t == Pushed(r, m)
  {
    hide OfUnit, PushTables, Plus, PoisonedBy;
  }

  lemma PushedHas(r: Relation, m: Unit)
    ensures var t := Pushed(r, m);
            && t.lists == Plus(r.lists, OfUnit(m, r.tables.next, r.units)) &&
                t.poisoned == r.poisoned + PoisonedBy(m.inits, m.fns)
            && t.tables == PushTables(r.tables, m) && t.units == r.units + 1
  {
    hide OfUnit, PushTables, Plus, PoisonedBy;
  }

  lemma MergedHas(r: Relation, s: Relation)
    ensures var t := Merged(r, s);
            && t.lists == Plus(r.lists, ShiftLists(s.lists, r.tables.next, r.units)) &&
                t.poisoned == r.poisoned + s.poisoned
            && t.tables == MergeTables(r.tables, s.tables) && t.units == r.units + s.units
            && t.tables.next == r.tables.next + s.tables.next
  {
    hide ShiftLists, Plus;
  }

  /** A module pushed after the merge, or into the later shard before it: the same. */
  lemma MergeThenPush(r: Relation, s: Relation, m: Unit)
    ensures Pushed(Merged(r, s), m) == Merged(r, Pushed(s, m))
  {
    hide *;
    TablesMove(r.tables, s.tables, m);
    ListsMerge(r.lists, s.lists, m, s.tables.next, s.units, r.tables.next, r.units);
    MergedHas(r, s);
    PushedHas(s, m);
    MergedHas(r, Pushed(s, m));
    assert r.poisoned + s.poisoned + PoisonedBy(m.inits, m.fns) == r.poisoned +
           (s.poisoned + PoisonedBy(m.inits, m.fns));
    PushedIs(Merged(r, s), m, Merged(r, Pushed(s, m)));
  }

  lemma MergeEmpty(r: Relation)
    ensures Merged(r, EMPTY) == r
  {
    ShiftPlus(Nothing(), Nothing(), r.tables.next, r.units);
    PlusAssoc(r.lists, Nothing(), Nothing());
    hide Plus, ShiftLists;
    assert ShiftDeferred([], r.tables.next) == [];
  }

  /** Merging in the relation of later modules is pushing these modules. */
  lemma {:induction false} MergeIsPushing(r: Relation, ms: seq<Unit>)
    ensures Merged(r, PushedAll(EMPTY, ms)) == PushedAll(r, ms)
  {
    hide Merged, Pushed;
    if ms == [] {
      MergeEmpty(r);
    } else {
      var n := |ms| - 1;
      MergeIsPushing(r, ms[..n]);
      MergeThenPush(r, PushedAll(EMPTY, ms[..n]), ms[n]);
    }
  }

  lemma {:induction false} PushedOn(r: Relation, ms: seq<Unit>, ns: seq<Unit>)
    ensures PushedAll(PushedAll(r, ms), ns) == PushedAll(r, ms + ns)
  {
    hide Pushed;
    if ns == [] {
      assert ms + ns == ms;
    } else {
      var n := |ns| - 1;
      PushedOn(r, ms, ns[..n]);
      assert (ms + ns)[..|ms + ns| - 1] == ms + ns[..n];
    }
  }

  /** Two shards built apart and merged are one sequential build. */
  lemma MergeIsSequential(ms: seq<Unit>, ns: seq<Unit>)
    ensures Merged(PushedAll(EMPTY, ms), PushedAll(EMPTY, ns)) == PushedAll(EMPTY, ms + ns)
  {
    MergeIsPushing(PushedAll(EMPTY, ms), ns);
    PushedOn(EMPTY, ms, ns);
  }

  function Joined(shards: seq<seq<Unit>>): seq<Unit> {
    if shards == [] then [] else Joined(shards[..|shards| - 1]) + shards[|shards| - 1]
  }

  /** Merge the relations of separately built shards from the first to the last. */
  function MergedAll(shards: seq<seq<Unit>>): Relation {
    if shards == [] then EMPTY
    else Merged(MergedAll(shards[..|shards| - 1]), PushedAll(EMPTY, shards[|shards| - 1]))
  }

  /** However the modules are cut into shards, the merged relation is that of pushing them all in order. */
  lemma {:induction false} ShardingIrrelevant(shards: seq<seq<Unit>>)
    ensures MergedAll(shards) == PushedAll(EMPTY, Joined(shards))
  {
    hide Merged;
    if shards != [] {
      var n := |shards| - 1;
      ShardingIrrelevant(shards[..n]);
      MergeIsSequential(Joined(shards[..n]), shards[n]);
    }
  }

  // ------------------------------------------------------------ names

  ghost predicate IsExternal(t: Tables, name: string, g: nat) {
    g in t.meta && t.meta[g] == (name, false)
  }

  /** Ids are below `bound`, and a name stands for the first external function that has it. */
  ghost predicate FirstWins(t: Tables, bound: nat) {
    && (forall g: nat :: g in t.meta ==> g < bound)
    && (forall name: string :: name in t.byName ==> IsExternal(t, name, t.byName[name]))
    && (forall name: string, g: nat :: IsExternal(t, name, g) ==> name in t.byName && t.byName[name] <= g)
  }

  lemma FnFirst(t: Tables, f: Fn, g: nat)
    requires FirstWins(t, g)
    ensures FirstWins(EnterFn(t, f, g), g + 1)
  {
    var t' := EnterFn(t, f, g);
    forall name: string, h: nat ensures IsExternal(t', name, h) <==>
        IsExternal(t, name, h) || (h == g && !f.internal && name == f.name) {
    }
  }

  lemma {:induction false} FnsFirst(t: Tables, fns: seq<Fn>, base: nat)
    requires FirstWins(t, base)
    ensures FirstWins(EnterFns(t, fns, base), base + |fns|)
  {
    hide FirstWins, EnterFn;
    if fns != [] {
      var n := |fns| - 1;
      FnsFirst(t, fns[..n], base);
      FnFirst(EnterFns(t, fns[..n], base), fns[n], base + n);
    }
  }

  lemma {:induction false} InitsKeepNames(t: Tables, inits: seq<Init>, fns: seq<Fn>)
    ensures EnterInits(t, inits, fns).meta == t.meta && EnterInits(t, inits, fns).byName == t.byName
  {
    if inits != [] {
      InitsKeepNames(t, inits[..|inits| - 1], fns);
    }
  }

  lemma FirstWinsFrame(t: Tables, u: Tables, bound: nat)
    requires FirstWins(t, bound) && u.meta == t.meta && u.byName == t.byName
    ensures FirstWins(u, bound)
  {
    forall name: string, g: nat ensures IsExternal(u, name, g) == IsExternal(t, name, g) {
    }
  }

  lemma UnitFirst(t: Tables, m: Unit)
    requires FirstWins(t, t.next)
    ensures FirstWins(PushTables(t, m), PushTables(t, m).next)
  {
    var u := EnterFns(t, m.fns, t.next);
    FnsFirst(t, m.fns, t.next);
    InitsKeepNames(u, m.inits, m.fns);
    FirstWinsFrame(u, PushTables(t, m), t.next + |m.fns|);
    hide FirstWins, EnterFns, EnterInits;
  }

  /** After any build a name is known exactly when an external function has it, and stands for the first of them. */
  lemma {:induction false} FirstDefinitionWins(ms: seq<Unit>)
    ensures FirstWins(PushedAll(EMPTY, ms).tables, PushedAll(EMPTY, ms).tables.next)
  {
    if ms != [] {
      var n := |ms| - 1;
      FirstDefinitionWins(ms[..n]);
      UnitFirst(PushedAll(EMPTY, ms[..n]).tables, ms[n]);
      PushedHas(PushedAll(EMPTY, ms[..n]), ms[n]);
      hide FirstWins, PushTables, Pushed;
    }
  }
}
