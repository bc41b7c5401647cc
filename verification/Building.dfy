/**
 The streaming points-to builder: fold modules in one by one, or fold in a
 builder that took in later modules (crates/absint/src/pointsto.rs:433-775).
 What it holds is told through the descriptions of its nodes.

 Methods promise their result for as long as there is room for another node;
 `Exact` tells a caller whether there always was.
 */
module Building {
  import opened Wrappers
  import opened PointsToRules
  import opened Shards
  import opened Numbering
  import opened Remapping
  import PointsTo

  class Builder {
    var pt: PointsTo.Solver
    var regNode: map<(nat, nat), nat>
    var globalObj: map<string, nat>
    var objGlobal: map<nat, string>
    var next: nat
    var nameToGfid: map<string, nat>
    var fnParams: map<nat, seq<nat>>
    var deferred: seq<Deferred>
    var gfidMeta: map<nat, (string, bool)>
    var fnNames: set<string>
    var knownConstGlobals: set<string>
    ghost var desc: seq<Desc>
    ghost var units: nat
    ghost var exact: bool

    ghost function Now(): Snap
      reads this, pt
    {
      Snap(Tie(pt.View(), desc, regNode, globalObj, objGlobal), Lists(pt.addr, pt.copies, pt.geps, pt.loads, pt.stores))
    }

    ghost function KnownTables(): Tables
      reads this
    {
      Tables(next, fnParams, gfidMeta, nameToGfid, fnNames, knownConstGlobals, deferred)
    }

    /** The relation the builder holds, told by descriptions. */
    ghost function Means(): Relation
      reads this, pt
    {
      Relation(ReadLists(desc, Now().raw), PoisonNames(Now().tie), KnownTables(), units)
    }

    /** There was always room for another node, here and in every shard that was folded in. */
    ghost predicate Exact()
      reads this, pt
    {
      exact && Small(Now().tie)
    }

    /** Between two modules. */
    ghost predicate Valid()
      reads this, pt
    {
      Solid(Now()) && (Exact() ==> Tied(Now().tie, Bounds(next, next, units, 0)))
    }

    /** An empty relation: TOP alone. */
    constructor ()
      ensures Valid() && fresh(pt) && Exact() && Means() == EMPTY
    {
      pt := new PointsTo.Solver();
      regNode, globalObj, objGlobal := map[], map[], map[];
      next, nameToGfid, fnParams, deferred, gfidMeta := 0, map[], map[], [], map[];
      fnNames, knownConstGlobals := {}, {};
      desc, units, exact := [Top], 0, true;
      new;
      EmptyTied(Now());
      hide Good;
    }

    // ---------------------------------------------------------- nodes

    /** A node for something that has none. */
    method NewNode(ghost d: Desc, ghost b: Bounds, ghost b': Bounds) returns (x: nat)
      requires Solid(Now())
      modifies `desc, pt`n, pt`pts, pt`names
      ensures x == |old(desc)| && desc == old(desc) + [d] && NodeGot(old(Now()), Now(), b, b', x, d)
    {
      ghost var s := Now();
      SolidParts(s);
      x := pt.NewVar();
      desc := desc + [d];
      assert Now() == s.(tie := WithNode(s.tie, d));
      NodeBuilt(s, d, b, b');
      hide NodeGot, Solid, Tied, Good;
    }

    method Reg(g: nat, r: nat, ghost b: Bounds) returns (x: nat)
      requires Solid(Now()) && g < b.known <= b.g
      modifies `regNode, `desc, pt`n, pt`pts, pt`names
      ensures Built(old(Now()), Now(), b, b, Nothing(), {}) && StandsFor(old(Now()), Now(), b, x, RegOf(g, r))
    {
      ghost var s := Now();
      SolidParts(s);
      if (g, r) in regNode {
        x := regNode[(g, r)];
        RegStands(s, g, r, b);
        hide Built, StandsFor, Solid, Tied;
        return;
      }
      x := pt.NewVar();
      desc := desc + [RegOf(g, r)];
      regNode := regNode[(g, r) := x];
      assert Now() == s.(tie := WithReg(s.tie, g, r));
      RegBuilt(s, g, r, b);
      hide Built, StandsFor, Solid, Tied, Good;
    }

    method Global(name: string, ghost b: Bounds) returns (x: nat)
      requires Solid(Now())
      modifies `globalObj, `objGlobal, `desc, pt`n, pt`pts, pt`names
      ensures Built(old(Now()), Now(), b, b, Nothing(), {}) && StandsFor(old(Now()), Now(), b, x, GlobalOf(name))
      ensures desc == old(desc) || desc == old(desc) + [GlobalOf(name)]
    {
      ghost var s := Now();
      SolidParts(s);
      if name in globalObj {
        x := globalObj[name];
        GlobalStands(s, name, b);
        hide Built, StandsFor, Solid, Tied;
        return;
      }
      x := pt.NewVar();
      desc := desc + [GlobalOf(name)];
      globalObj := globalObj[name := x];
      objGlobal := objGlobal[x := name];
      assert Now() == s.(tie := WithGlobal(s.tie, name));
      GlobalBuilt(s, name, b);
      hide Built, StandsFor, Solid, Tied, Good;
    }

    /** The cell of a field of node `o`. */
    method Cell(o: nat, off: nat, ghost b: Bounds) returns (c: nat)
      requires Solid(Now()) && o < pt.n
      modifies `desc, pt`n, pt`pts, pt`fieldCell, pt`poisoned, pt`names
      ensures FieldGot(old(Now()), Now(), b, o, off, c)
    {
      ghost var s := Now();
      SolidParts(s);
      c := pt.InternField(o, off);
      if pt.n != old(pt.n) {
        desc := desc + [CellOf(Then(desc, o), off)];
      }
      assert Now() == s.(tie := WithField(s.tie, o, off));
      FieldBuilt(s, o, off, b);
      hide FieldGot, Solid, Tied, Good;
    }

    /** A temporary of the module that is being folded in. */
    method NewLocal(ghost b: Bounds) returns (x: nat)
      requires Solid(Now())
      modifies `desc, pt`n, pt`pts, pt`names
      ensures Built(old(Now()), Now(), b, b.(k := b.k + 1), Nothing(), {})
      ensures StandsFor(old(Now()), Now(), b, x, Local(b.u, b.k))
    {
      if Tied(Now().tie, b) {
        LocalNew(Now().tie, b);
      }
      assert NodeFits(Now(), Local(b.u, b.k), b, b.(k := b.k + 1));
      hide Built, StandsFor, Solid, Tied, NodeFits;
      x := NewNode(Local(b.u, b.k), b, b.(k := b.k + 1));
    }

    // ---------------------------------------------------------- operands and instructions

    /** The pointer value of an operand: a register's node, or a temporary that points to a global. */
    method OperandPtr(g: nat, v: Value, ghost b: Bounds) returns (x: Option<nat>)
      requires Solid(Now()) && g < b.known <= b.g
      modifies `regNode, `globalObj, `objGlobal, `desc, pt`n, pt`pts, pt`names, pt`addr
      ensures var (d, ls, k) := Operand(v, g, b.u, b.k);
              && Built(old(Now()), Now(), b, b.(k := k), ls, {}) && (x.Some? <==> d.Some?)
              && (x.Some? ==> StandsFor(old(Now()), Now(), b, x.value, d.value))
    {
      ghost var s := Now();
      hide Built, StandsFor, Solid, Tied;
      match v {
        case PReg(r) =>
          var y := Reg(g, r, b);
          x := Some(y);
        case Symbol(name) =>
          var o := Global(name, b);
          ghost var t := Now();
          BuiltSolid(s, t, b, b, Nothing(), {});
          var y := NewLocal(b);
          ghost var b' := b.(k := b.k + 1);
          AfterQuiet(s, t, Now(), b, b, b', Nothing(), o, GlobalOf(name), y, Local(b.u, b.k));
          PutBuilt(s, Now(), b, b', Nothing(), {}, Addr, y, Local(b.u, b.k), o, GlobalOf(name));
          PutIs(Nothing(), Local(b.u, b.k), GlobalOf(name), 0);
          PutIs(AddrOf(Local(b.u, b.k), GlobalOf(name)), Top, Top, 0);
          StandsRaw(s, Now(), b, y, Local(b.u, b.k), Put(Now().raw, Addr, y, o));
          pt.AddressOf(y, o);
          x := Some(y);
        case Unknown =>
          BuiltSelf(s, b);
          x := None;
      }
    }

    method PushAlloc(g: nat, dst: nat, ghost b: Bounds)
      requires Solid(Now()) && g < b.known <= b.g
      modifies `regNode, `desc, pt`n, pt`pts, pt`names, pt`addr
      ensures Built(old(Now()), Now(), b, b.(k := b.k + 1), AddrOf(RegOf(g, dst), Local(b.u, b.k)), {})
    {
      hide Built, StandsFor, Solid, Tied, AddrOf, Nothing, Plus;
      ghost var s, b' := Now(), b.(k := b.k + 1);
      var o := NewLocal(b);
      ghost var t := Now();
      BuiltSolid(s, t, b, b', Nothing(), {});
      var d := Reg(g, dst, b');
      AfterQuiet(s, t, Now(), b, b', b', Nothing(), o, Local(b.u, b.k), d, RegOf(g, dst));
      PutBuilt(s, Now(), b, b', Nothing(), {}, Addr, d, RegOf(g, dst), o, Local(b.u, b.k));
      PutIs(Nothing(), RegOf(g, dst), Local(b.u, b.k), 0);
      PutIs(AddrOf(RegOf(g, dst), Local(b.u, b.k)), Top, Top, 0);
      pt.AddressOf(d, o);
    }

    method PushMove(g: nat, dst: nat, src: Value, ghost b: Bounds)
      requires Solid(Now()) && g < b.known <= b.g
      modifies `regNode, `globalObj, `objGlobal, `desc, pt`n, pt`pts, pt`names, pt`addr, pt`copies
      ensures var (ls, k) := OfInst(Move(dst, src), g, b.u, b.k); Built(old(Now()), Now(), b, b.(k := k), ls, {})
    {
      ghost var s := Now();
      ghost var (v, ls, k) := Operand(src, g, b.u, b.k);
      OperandNone(src, g, b.u, b.k);
      hide Built, StandsFor, Solid, Tied, Operand, Plus, Nothing, CopyOf, StoreOf, GepOf;
      var x := OperandPtr(g, src, b);
      if x.Some? {
        ghost var t, b' := Now(), b.(k := k);
        BuiltSolid(s, t, b, b', ls, {});
        var d := Reg(g, dst, b');
        AfterQuiet(s, t, Now(), b, b', b', ls, x.value, v.value, d, RegOf(g, dst));
        PutBuilt(s, Now(), b, b', ls, {}, Copy, d, RegOf(g, dst), x.value, v.value);
        PutIs(ls, RegOf(g, dst), v.value, 0);
        pt.Assign(d, x.value);
      }
    }

    method PushGep(g: nat, dst: nat, base: nat, off: nat, ghost b: Bounds)
      requires Solid(Now()) && g < b.known <= b.g
      modifies `regNode, `desc, pt`n, pt`pts, pt`names, pt`geps
      ensures Built(old(Now()), Now(), b, b, GepOf(RegOf(g, dst), RegOf(g, base), off), {})
    {
      ghost var s := Now();
      hide Built, StandsFor, Solid, Tied;
      var x := Reg(g, base, b);
      ghost var t := Now();
      BuiltSolid(s, t, b, b, Nothing(), {});
      var d := Reg(g, dst, b);
      AfterQuiet(s, t, Now(), b, b, b, Nothing(), x, RegOf(g, base), d, RegOf(g, dst));
      PutBuilt(s, Now(), b, b, Nothing(), {}, Gep(off), d, RegOf(g, dst), x, RegOf(g, base));
      PutIs(Nothing(), RegOf(g, dst), RegOf(g, base), off);
      PutIs(GepOf(RegOf(g, dst), RegOf(g, base), off), Top, Top, 0);
      pt.Gep(d, x, off);
    }

    method PushLoad(g: nat, dst: nat, ptr: nat, ghost b: Bounds)
      requires Solid(Now()) && g < b.known <= b.g
      modifies `regNode, `desc, pt`n, pt`pts, pt`names, pt`loads
      ensures Built(old(Now()), Now(), b, b, LoadOf(RegOf(g, dst), RegOf(g, ptr)), {})
    {
      ghost var s := Now();
      hide Built, StandsFor, Solid, Tied;
      var x := Reg(g, ptr, b);
      ghost var t := Now();
      BuiltSolid(s, t, b, b, Nothing(), {});
      var d := Reg(g, dst, b);
      AfterQuiet(s, t, Now(), b, b, b, Nothing(), x, RegOf(g, ptr), d, RegOf(g, dst));
      PutBuilt(s, Now(), b, b, Nothing(), {}, Load, d, RegOf(g, dst), x, RegOf(g, ptr));
      PutIs(Nothing(), RegOf(g, dst), RegOf(g, ptr), 0);
      PutIs(LoadOf(RegOf(g, dst), RegOf(g, ptr)), Top, Top, 0);
      pt.Load(d, x);
    }

    method PushStore(g: nat, ptr: nat, value: Value, ghost b: Bounds)
      requires Solid(Now()) && g < b.known <= b.g
      modifies `regNode, `globalObj, `objGlobal, `desc, pt`n, pt`pts, pt`names, pt`addr, pt`stores
      ensures var (ls, k) := OfInst(StorePtr(ptr, value), g, b.u, b.k); Built(old(Now()), Now(), b, b.(k := k), ls, {})
    {
      ghost var s := Now();
      ghost var (v, ls, k) := Operand(value, g, b.u, b.k);
      OperandNone(value, g, b.u, b.k);
      hide Built, StandsFor, Solid, Tied, Operand, Plus, Nothing, CopyOf, StoreOf, GepOf;
      var x := OperandPtr(g, value, b);
      if x.Some? {
        ghost var t, b' := Now(), b.(k := k);
        BuiltSolid(s, t, b, b', ls, {});
        var p := Reg(g, ptr, b');
        AfterQuiet(s, t, Now(), b, b', b', ls, x.value, v.value, p, RegOf(g, ptr));
        PutBuilt(s, Now(), b, b', ls, {}, Store, x.value, v.value, p, RegOf(g, ptr));
        PutIs(ls, v.value, RegOf(g, ptr), 0);
        pt.Store(x.value, p);
      }
    }

    /** A field access at the unknown offset, whose target is thrown away. */
    method PoisonThrough(g: nat, target: Value, ghost b: Bounds)
      requires Solid(Now()) && g < b.known <= b.g
      modifies `regNode, `globalObj, `objGlobal, `desc, pt`n, pt`pts, pt`names, pt`addr, pt`geps
      ensures var (ls, k) := OfInst(Bulk(target), g, b.u, b.k); Built(old(Now()), Now(), b, b.(k := k), ls, {})
    {
      ghost var s := Now();
      ghost var (v, ls, k) := Operand(target, g, b.u, b.k);
      OperandNone(target, g, b.u, b.k);
      hide Built, StandsFor, Solid, Tied, Operand, Plus, Nothing, CopyOf, StoreOf, GepOf;
      var x := OperandPtr(g, target, b);
      if x.Some? {
        ghost var t, b', b'' := Now(), b.(k := k), b.(k := k + 1);
        BuiltSolid(s, t, b, b', ls, {});
        var anyf := NewLocal(b');
        AfterQuiet(s, t, Now(), b, b', b'', ls, x.value, v.value, anyf, Local(b.u, k));
        PutBuilt(s, Now(), b, b'', ls, {}, Gep(ANY_OFFSET), anyf, Local(b.u, k), x.value, v.value);
        PutIs(ls, Local(b.u, k), v.value, ANY_OFFSET);
        pt.Gep(anyf, x.value, ANY_OFFSET);
      }
    }

    /** The result of a call is an unknown pointer. */
    method PushResult(g: nat, result: Option<nat>, ghost b: Bounds)
      requires Solid(Now()) && g < b.known <= b.g
      modifies `regNode, `desc, pt`n, pt`pts, pt`names, pt`addr
      ensures Built(old(Now()), Now(), b, b,
                    if result.Some? then AddrOf(RegOf(g, result.value), Top) else Nothing(), {})
    {
      ghost var s := Now();
      hide Built, StandsFor, Solid, Tied;
      if result.None? {
        BuiltSelf(s, b);
        return;
      }
      var d := Reg(g, result.value, b);
      TopStands(s, Now(), b, b, Nothing(), {});
      PutBuilt(s, Now(), b, b, Nothing(), {}, Addr, d, RegOf(g, result.value), TOP, Top);
      PutIs(Nothing(), RegOf(g, result.value), Top, 0);
      PutIs(AddrOf(RegOf(g, result.value), Top), Top, Top, 0);
      pt.AddressOf(d, TOP);
    }

    /** The constraints of one instruction; a call is put off. */
    method PushInst(g: nat, inst: Inst, base: nat, ghost b: Bounds)
      requires Solid(Now()) && g < b.known <= b.g
      modifies `regNode, `globalObj, `objGlobal, `desc, `deferred, pt`n, pt`pts, pt`names, pt`addr, pt`copies, pt`geps,
          pt`loads, pt`stores
      ensures var (ls, k) := OfInst(inst, g, b.u, b.k); Built(old(Now()), Now(), b, b.(k := k), ls, {})
      ensures deferred == old(deferred) + DeferredOf(inst, g, base)
    {
      hide Built, StandsFor, Solid, Tied;
      match inst {
        case Alloc(dst) => PushAlloc(g, dst, b);
        case Move(dst, src) => PushMove(g, dst, src, b);
        case Offset(dst, bs, bytes) => PushGep(g, dst, bs, if bytes.Some? then bytes.value else ANY_OFFSET, b);
        case FieldPtr(dst, bs) => PushGep(g, dst, bs, ANY_OFFSET, b);
        case LoadPtr(dst, ptr) => PushLoad(g, dst, ptr, b);
        case StorePtr(ptr, value) => PushStore(g, ptr, value, b);
        case Bulk(target) => PoisonThrough(g, target, b);
        case Call(result, callee, args) =>
          deferred := deferred + [Deferred(g, TargetOf(callee, base), args)];
          PushResult(g, result, b);
        case Other => BuiltSelf(Now(), b);
      }
    }

    /** All instructions of a function. */
    method PushBody(g: nat, insts: seq<Inst>, base: nat, ghost b: Bounds)
      requires Solid(Now()) && g < b.known <= b.g
      modifies `regNode, `globalObj, `objGlobal, `desc, `deferred, pt`n, pt`pts, pt`names, pt`addr, pt`copies, pt`geps,
          pt`loads, pt`stores
      ensures var (ls, k) := OfInsts(insts, g, b.u, b.k); Built(old(Now()), Now(), b, b.(k := k), ls, {})
      ensures deferred == old(deferred) + DeferredIn(insts, g, base)
    {
      ghost var s := Now();
      hide Built, Solid, Tied, OfInst, Plus, DeferredOf;
      BuiltSelf(s, b);
      var i := 0;
      while i < |insts|
        invariant i <= |insts|
        invariant var (ls, k) := OfInsts(insts[..i], g, b.u, b.k); Built(s, Now(), b, b.(k := k), ls, {})
        invariant deferred == old(deferred) + DeferredIn(insts[..i], g, base)
      {
        ghost var t := Now();
        ghost var (ls, k) := OfInsts(insts[..i], g, b.u, b.k);
        ghost var (one, k') := OfInst(insts[i], g, b.u, k);
        BuiltSolid(s, t, b, b.(k := k), ls, {});
        PushInst(g, insts[i], base, b.(k := k));
        BuiltThen(s, t, Now(), b, b.(k := k), b.(k := k'), ls, one, {}, {});
        NoMore({});
        assert insts[..i + 1][..i] == insts[..i];
        i := i + 1;
      }
      assert insts[..|insts|] == insts;
    }

    method PushBodies(fns: seq<Fn>, base: nat, ghost b: Bounds)
      requires Solid(Now()) && base + |fns| <= b.known <= b.g && b.k == 0
      modifies `regNode, `globalObj, `objGlobal, `desc, `deferred, pt`n, pt`pts, pt`names, pt`addr, pt`copies, pt`geps,
          pt`loads, pt`stores
      ensures var (ls, k) := OfFns(fns, base, b.u); Built(old(Now()), Now(), b, b.(k := k), ls, {})
      ensures deferred == old(deferred) + DeferredAll(fns, base)
    {
      ghost var s := Now();
      hide Built, Solid, Tied, OfInsts, Plus, DeferredIn;
      BuiltSelf(s, b);
      var i := 0;
      while i < |fns|
        invariant i <= |fns|
        invariant var (ls, k) := OfFns(fns[..i], base, b.u); Built(s, Now(), b, b.(k := k), ls, {})
        invariant deferred == old(deferred) + DeferredAll(fns[..i], base)
      {
        ghost var t := Now();
        ghost var (ls, k) := OfFns(fns[..i], base, b.u);
        ghost var (one, k') := OfInsts(fns[i].insts, base + i, b.u, k);
        BuiltSolid(s, t, b, b.(k := k), ls, {});
        PushBody(base + i, fns[i].insts, base, b.(k := k));
        BuiltThen(s, t, Now(), b, b.(k := k), b.(k := k'), ls, one, {}, {});
        NoMore({});
        assert fns[..i + 1][..i] == fns[..i];
        i := i + 1;
      }
      assert fns[..|fns|] == fns;
    }

    // ---------------------------------------------------------- modules

    /** The field of `gname` at `off` holds the address of `target`. */
    method GlobalFieldInit(gname: string, off: nat, target: string, ghost b: Bounds)
      requires Solid(Now())
      modifies `globalObj, `objGlobal, `desc, `knownConstGlobals, pt`n, pt`pts, pt`names, pt`addr, pt`fieldCell,
          pt`poisoned
      ensures Built(old(Now()), Now(), b, b, AddrOf(FieldOf(GlobalOf(gname), off), GlobalOf(target)),
                    if off == ANY_OFFSET then {gname} else {})
      ensures knownConstGlobals == old(knownConstGlobals) + {gname}
    {
      ghost var s := Now();
      ghost var cellDesc, ps := FieldOf(GlobalOf(gname), off), if off == ANY_OFFSET then {gname} else {};
      hide Built, StandsFor, Solid, Tied, FieldGot, FieldOf;
      var obj := Global(gname, b);
      ghost var t := Now();
      BuiltSolid(s, t, b, b, Nothing(), {});
      GlobalIs(s, t, b, obj, gname);
      ShapeSize(t);
      var cell := Cell(obj, off, b);
      ghost var u := Now();
      CellBuilt(s, t, u, b, obj, gname, off, cell);
      BuiltSolid(s, u, b, b, Nothing(), ps);
      var tobj := Global(target, b);
      AfterNodes(s, u, Now(), b, b, b, Nothing(), ps, cell, cellDesc, tobj, GlobalOf(target));
      PutBuilt(s, Now(), b, b, Nothing(), ps, Addr, cell, cellDesc, tobj, GlobalOf(target));
      PutIs(Nothing(), cellDesc, GlobalOf(target), 0);
      PutIs(AddrOf(cellDesc, GlobalOf(target)), Top, Top, 0);
      pt.AddressOf(cell, tobj);
      knownConstGlobals := knownConstGlobals + {gname};
    }

    /** Take in the constant initialisers. */
    method IngestInits(inits: seq<Init>, fns: seq<Fn>, ghost b: Bounds)
      requires Solid(Now())
      modifies `globalObj, `objGlobal, `desc, `knownConstGlobals, `fnNames, pt`n, pt`pts, pt`names, pt`addr,
          pt`fieldCell, pt`poisoned
      ensures Built(old(Now()), Now(), b, b, OfInits(inits, fns), PoisonedBy(inits, fns))
      ensures KnownTables() == EnterInits(old(KnownTables()), inits, fns)
    {
      ghost var s := Now();
      hide Built, Solid, Tied, Plus;
      BuiltSelf(s, b);
      PoisonedByNone(fns);
      var i := 0;
      while i < |inits|
        invariant i <= |inits|
        invariant Built(s, Now(), b, b, OfInits(inits[..i], fns), PoisonedBy(inits[..i], fns))
        invariant KnownTables() == EnterInits(old(KnownTables()), inits[..i], fns)
      {
        ghost var t := Now();
        BuiltSolid(s, t, b, b, OfInits(inits[..i], fns), PoisonedBy(inits[..i], fns));
        IngestInit(inits[i], fns, b);
        BuiltThen(s, t, Now(), b, b, b, OfInits(inits[..i], fns), OfInit(inits[i], fns),
                  PoisonedBy(inits[..i], fns), PoisonedBy([inits[i]], fns));
        PoisonedBySnoc(inits[..i], inits[i], fns);
        assert inits[..i + 1] == inits[..i] + [inits[i]] && inits[..i + 1][..i] == inits[..i];
        i := i + 1;
      }
      assert inits[..|inits|] == inits;
    }

    method IngestInit(i: Init, fns: seq<Fn>, ghost b: Bounds)
      requires Solid(Now())
      modifies `globalObj, `objGlobal, `desc, `knownConstGlobals, `fnNames, pt`n, pt`pts, pt`names, pt`addr,
          pt`fieldCell, pt`poisoned
      ensures Built(old(Now()), Now(), b, b, OfInit(i, fns), PoisonedBy([i], fns))
      ensures KnownTables() == EnterInit(old(KnownTables()), i, fns)
    {
      hide Built, Solid, Tied;
      PoisonedByOne(i, fns);
      var target := TargetName(i, fns);
      if target.None? {
        BuiltSelf(Now(), b);
        return;
      }
      if i.FnPtr? {
        fnNames := fnNames + {target.value};
      }
      GlobalFieldInit(i.global, i.off, target.value, b);
    }

    /** Number the functions and record their parameters and names. */
    method EnterFunctions(fns: seq<Fn>)
      modifies `fnParams, `gfidMeta, `fnNames, `nameToGfid
      ensures KnownTables() == EnterFns(old(KnownTables()), fns, next)
    {
      var i := 0;
      while i < |fns|
        invariant i <= |fns|
        invariant KnownTables() == EnterFns(old(KnownTables()), fns[..i], next)
      {
        var f, gfid := fns[i], next + i;
        fnParams := fnParams[gfid := f.params];
        gfidMeta := gfidMeta[gfid := (f.name, f.internal)];
        fnNames := fnNames + {f.name};
        if !f.internal && f.name !in nameToGfid {
          nameToGfid := nameToGfid[f.name := gfid];
        }
        assert fns[..i + 1][..i] == fns[..i];
        i := i + 1;
      }
      assert fns[..|fns|] == fns;
    }

    /** Everything a module adds. */
    method FoldIn(m: Unit, ghost b: Bounds)
      requires Solid(Now()) && b == Bounds(next + |m.fns|, next + |m.fns|, units, 0)
      modifies `regNode, `globalObj, `objGlobal, `desc, `deferred, `next, `nameToGfid, `fnParams, `gfidMeta, `fnNames,
          `knownConstGlobals, `units
      modifies pt
      ensures var k := OfFns(m.fns, old(next), old(units)).1;
              Built(old(Now()), Now(), b, b.(k := k), OfUnit(m, old(next), old(units)), PoisonedBy(m.inits, m.fns))
      ensures KnownTables() == PushTables(old(KnownTables()), m) && units == old(units) + 1
    {
      ghost var s := Now();
      hide Built, Solid, OfInits, OfFns, PoisonedBy, Plus, EnterFns, EnterInits, DeferredAll, Tied, Good;
      EnterFunctions(m.fns);
      ghost var tables := KnownTables();
      IngestInits(m.inits, m.fns, b);
      ghost var t := Now();
      BuiltSolid(s, t, b, b, OfInits(m.inits, m.fns), PoisonedBy(m.inits, m.fns));
      FnsKeep(old(KnownTables()), m.fns, next);
      InitsKeep(tables, m.inits, m.fns);
      PushBodies(m.fns, next, b);
      ghost var k := OfFns(m.fns, next, units).1;
      BuiltThen(s, t, Now(), b, b, b.(k := k), OfInits(m.inits, m.fns), OfFns(m.fns, next, units).0,
                PoisonedBy(m.inits, m.fns), {});
      NoMore(PoisonedBy(m.inits, m.fns));
      next := next + |m.fns|;
      units := units + 1;
    }

    /** Fold one module in, unless there are too many nodes already. */
    method PushModule(m: Unit)
      requires Valid()
      modifies this, pt
      ensures Valid() && pt == old(pt)
      ensures Exact() ==> old(Exact()) && Means() == Pushed(old(Means()), m)
      ensures old(pt.n) >= MAX_NODES ==> pt.n == old(pt.n) && Means() == old(Means())
    {
      hide Built, Solid, OfUnit, OfFns, PoisonedBy, PushTables, Pushed, PoisonNames, ReadLists, Tied, Good;
      if pt.n >= MAX_NODES {
        return;
      }
      ghost var s, r := Now(), Means();
      FoldIn(m, Bounds(next + |m.fns|, next + |m.fns|, units, 0));
      ModulePushed(s, Now(), r, m, OfFns(m.fns, r.tables.next, r.units).1);
    }

    // ---------------------------------------------------------- merging

    /** The image of a node of a later shard: cells through their objects, globals by name, anything else anew. */
    method Remap(x: nat, other: Builder, cellOf: map<nat, (nat, nat)>, memo: Memo, ghost p: Plan)
      returns (y: nat, memo': Memo)
      requires this != other && pt != other.pt && p.o == other.Now().tie && Solid(other.Now()) && x < p.o.st.n
      requires Solid(Now()) && MemoShape(Now().tie, p, memo) && IsInverse(p.o.st.cells, cellOf)
      modifies `globalObj, `objGlobal, `desc, pt`n, pt`pts, pt`fieldCell, pt`poisoned, pt`names
      ensures Brings(old(Now()), Now(), p, memo, memo', Nothing(), {}) && x in memo' && memo'[x] == y
      ensures Lower(p.o.st, memo, memo', RankOf(p.o.st, x))
      decreases RankOf(p.o.st, x)
    {
      hide Solid, Brings, MemoShape, Built, StandsFor, Tied, Mid, FieldGot, NodeGot, Good, Image, Late, Nothing,
        FieldOf;
      ghost var s := Now();
      SolidParts(other.Now());
      NamesSize(p.o.st);
      if x in memo {
        y, memo' := memo[x], memo;
        BringsNothing(s, p, memo);
        return;
      }
      if x in cellOf {
        var (obj, off) := cellOf[x];
        RankBelow(p.o.st, obj, off);
        var so, memo1 := Remap(obj, other, cellOf, memo, p);
        ghost var t := Now();
        ImageIn(s, t, p, memo, memo1, obj);
        y := Cell(so, off, Outer(p));
        memo' := memo1[x := y];
        CellBrought(s, t, Now(), p, memo, memo1, x, obj, off, y);
        return;
      }
      if x in other.objGlobal {
        y := Global(other.objGlobal[x], Outer(p));
        GlobalBrought(s, Now(), p, memo, x, y);
      } else {
        y := NewNode(Image(p, x), Outer(p), Outer(p));
        PlainIs(p.o.st, cellOf, x);
        NodeBrought(s, Now(), p, memo, x, y);
      }
      memo' := memo[x := y];
    }

    method Record(kind: Kind, x: nat, y: nat)
      modifies pt`addr, pt`copies, pt`geps, pt`loads, pt`stores
      ensures Now() == old(Now()).(raw := Put(old(Now()).raw, kind, x, y))
    {
      match kind
      case Addr => pt.AddressOf(x, y);
      case Copy => pt.Assign(x, y);
      case Gep(off) => pt.Gep(x, y, off);
      case Load => pt.Load(x, y);
      case Store => pt.Store(x, y);
    }

    /** One constraint of the shard. */
    method MergeOne(kind: Kind, x: nat, y: nat, other: Builder, cellOf: map<nat, (nat, nat)>, memo: Memo, ghost p: Plan)
      returns (memo': Memo)
      requires this != other && pt != other.pt && p.o == other.Now().tie && Solid(other.Now()) && x < p.o.st.n
      requires y < p.o.st.n
      requires Solid(Now()) && MemoShape(Now().tie, p, memo) && IsInverse(p.o.st.cells, cellOf)
      modifies `globalObj, `objGlobal, `desc, pt
      ensures Brings(old(Now()), Now(), p, memo, memo', Put(Nothing(), kind, Image(p, x), Image(p, y)), {})
    {
      hide Solid, Brings, MemoShape, Tied, Mid, IsInverse, Lower;
      ghost var s := Now();
      var a, memo1 := Remap(x, other, cellOf, memo, p);
      ghost var t := Now();
      ImageIn(s, t, p, memo, memo1, x);
      var b;
      b, memo' := Remap(y, other, cellOf, memo1, p);
      KeptImage(t, Now(), p, memo1, memo', x);
      BringsQuiet(s, t, Now(), p, memo, memo1, memo', Nothing(), {});
      PutBrought(s, Now(), p, memo, memo', Nothing(), {}, kind, x, y);
      Record(kind, a, b);
    }

    method MergePairs(kind: Kind, l: seq<(nat, nat)>, other: Builder, cellOf: map<nat, (nat, nat)>, memo: Memo,
                      ghost p: Plan)
      returns (memo': Memo)
      requires this != other && pt != other.pt && p.o == other.Now().tie && Solid(other.Now()) && !kind.Gep?
      requires PairsIn(l, p.o.st.n)
      requires Solid(Now()) && MemoShape(Now().tie, p, memo) && IsInverse(p.o.st.cells, cellOf)
      modifies `globalObj, `objGlobal, `desc, pt
      ensures Brings(old(Now()), Now(), p, memo, memo', OfPairs(kind, ImagePairs(p, l)), {})
    {
      hide Solid, Brings, MemoShape, Tied, Mid, IsInverse, ImagePairs, OfPairs, Put, Plus;
      ghost var s := Now();
      memo' := memo;
      BringsNothing(s, p, memo);
      NoPairs(p, kind);
      var i := 0;
      while i < |l|
        invariant i <= |l|
        invariant Brings(s, Now(), p, memo, memo', OfPairs(kind, ImagePairs(p, l[..i])), {})
      {
        ghost var t, memo1, ls := Now(), memo', OfPairs(kind, ImagePairs(p, l[..i]));
        BringsShape(s, t, p, memo, memo', ls, {});
        memo' := MergeOne(kind, l[i].0, l[i].1, other, cellOf, memo', p);
        BringsThen(s, t, Now(), p, memo, memo1, memo', ls, Put(Nothing(), kind, Image(p, l[i].0), Image(p, l[i].1)), {},
                   {});
        NoMore({});
        PairPut(kind, ImagePairs(p, l[..i]), Image(p, l[i].0), Image(p, l[i].1));
        ImagePairsSnoc(p, l, i);
        i := i + 1;
      }
      assert l[..|l|] == l;
    }

    method MergeGeps(l: seq<(nat, nat, nat)>, other: Builder, cellOf: map<nat, (nat, nat)>, memo: Memo, ghost p: Plan)
      returns (memo': Memo)
      requires this != other && pt != other.pt && p.o == other.Now().tie && Solid(other.Now()) && TriplesIn(l, p.o.st.n)
      requires Solid(Now()) && MemoShape(Now().tie, p, memo) && IsInverse(p.o.st.cells, cellOf)
      modifies `globalObj, `objGlobal, `desc, pt
      ensures Brings(old(Now()), Now(), p, memo, memo', OfTriples(ImageTriples(p, l)), {})
    {
      hide Solid, Brings, MemoShape, Tied, Mid, IsInverse, ImageTriples, OfTriples, Put, Plus;
      ghost var s := Now();
      memo' := memo;
      BringsNothing(s, p, memo);
      NoPairs(p, Addr);
      var i := 0;
      while i < |l|
        invariant i <= |l|
        invariant Brings(s, Now(), p, memo, memo', OfTriples(ImageTriples(p, l[..i])), {})
      {
        ghost var t, memo1, ls := Now(), memo', OfTriples(ImageTriples(p, l[..i]));
        BringsShape(s, t, p, memo, memo', ls, {});
        memo' := MergeOne(Gep(l[i].2), l[i].0, l[i].1, other, cellOf, memo', p);
        BringsThen(s, t, Now(), p, memo, memo1, memo', ls,
                   Put(Nothing(), Gep(l[i].2), Image(p, l[i].0), Image(p, l[i].1)), {}, {});
        NoMore({});
        TriplePut(ImageTriples(p, l[..i]), Image(p, l[i].0), Image(p, l[i].1), l[i].2);
        ImageTriplesSnoc(p, l, i);
        i := i + 1;
      }
      assert l[..|l|] == l;
    }

    /** All constraints of the shard. */
    method MergeLists(other: Builder, cellOf: map<nat, (nat, nat)>, memo: Memo, ghost p: Plan) returns (memo': Memo)
      requires this != other && pt != other.pt && p.o == other.Now().tie && Solid(other.Now())
      requires Solid(Now()) && MemoShape(Now().tie, p, memo) && IsInverse(p.o.st.cells, cellOf)
      modifies `globalObj, `objGlobal, `desc, pt
      ensures Brings(old(Now()), Now(), p, memo, memo', ShiftLists(ReadLists(p.o.desc, other.Now().raw), p.gb, p.ub),
              {})
    {
      ghost var raw := other.Now().raw;
      ListsTogether(p, raw);
      SolidLists(other.Now());
      hide Solid, Brings, MemoShape, Tied, Mid, IsInverse, ImagePairs, ImageTriples, OfPairs, OfTriples, Plus,
        ShiftLists, ReadLists,
        PairsIn, TriplesIn;
      ghost var s, l0 := Now(), OfPairs(Addr, ImagePairs(p, raw.addr));
      var m0 := MergePairs(Addr, other.pt.addr, other, cellOf, memo, p);
      ghost var t0, l1 := Now(), OfPairs(Copy, ImagePairs(p, raw.copies));
      BringsShape(s, t0, p, memo, m0, l0, {});
      var m1 := MergePairs(Copy, other.pt.copies, other, cellOf, m0, p);
      ghost var t1, l2 := Now(), OfTriples(ImageTriples(p, raw.geps));
      BringsMore(s, t0, t1, p, memo, m0, m1, l0, l1);
      var m2 := MergeGeps(other.pt.geps, other, cellOf, m1, p);
      ghost var t2, l3 := Now(), OfPairs(Load, ImagePairs(p, raw.loads));
      BringsMore(s, t1, t2, p, memo, m1, m2, Plus(l0, l1), l2);
      var m3 := MergePairs(Load, other.pt.loads, other, cellOf, m2, p);
      ghost var t3, l4 := Now(), OfPairs(Store, ImagePairs(p, raw.stores));
      BringsMore(s, t2, t3, p, memo, m2, m3, Plus(Plus(l0, l1), l2), l3);
      memo' := MergePairs(Store, other.pt.stores, other, cellOf, m3, p);
      BringsMore(s, t3, Now(), p, memo, m3, memo', Plus(Plus(Plus(l0, l1), l2), l3), l4);
    }

    /** Poison the image of a poisoned object. */
    method MergePoisoned(x: nat, other: Builder, cellOf: map<nat, (nat, nat)>, memo: Memo, ghost p: Plan)
      returns (memo': Memo)
      requires this != other && pt != other.pt && p.o == other.Now().tie && Solid(other.Now()) && x in p.o.st.poisoned
      requires Solid(Now()) && MemoShape(Now().tie, p, memo) && IsInverse(p.o.st.cells, cellOf)
      modifies `globalObj, `objGlobal, `desc, pt
      ensures Brings(old(Now()), Now(), p, memo, memo', Nothing(), {NameIn(Then(p.o.desc, x))})
    {
      hide Solid, Brings, MemoShape, Tied, Mid, IsInverse, Good, Shape, Lower, Poisoned, Nothing, NameIn;
      ghost var s := Now();
      SolidParts(other.Now());
      CellRange(p.o);
      var a;
      a, memo' := Remap(x, other, cellOf, memo, p);
      ghost var t := Now();
      ImageIn(s, t, p, memo, memo', x);
      SolidParts(t);
      SolidShape(t);
      PoisonBrought(s, t, p, memo, memo', Nothing(), {}, x);
      pt.Poison(a);
      assert Now() == t.(tie := t.tie.(st := Poisoned(t.tie.st, memo'[x])));
      assert {} + {NameIn(Then(p.o.desc, x))} == {NameIn(Then(p.o.desc, x))};
    }

    /** Poison what the shard has poisoned. */
    method MergePoison(other: Builder, cellOf: map<nat, (nat, nat)>, memo: Memo, ghost p: Plan) returns (memo': Memo)
      requires this != other && pt != other.pt && p.o == other.Now().tie && Solid(other.Now())
      requires Solid(Now()) && MemoShape(Now().tie, p, memo) && IsInverse(p.o.st.cells, cellOf)
      modifies `globalObj, `objGlobal, `desc, pt
      ensures Brings(old(Now()), Now(), p, memo, memo', Nothing(), PoisonNames(p.o))
    {
      hide Solid, Brings, MemoShape, Tied, Mid, IsInverse, ImageNames, Good, Shape;
      ghost var s, done := Now(), {};
      BringsNothing(s, p, memo);
      ImageNamesPlus(p, {}, 0);
      memo' := memo;
      var left := other.pt.poisoned;
      while left != {}
        invariant left <= p.o.st.poisoned && done == p.o.st.poisoned - left
        invariant Brings(s, Now(), p, memo, memo', Nothing(), ImageNames(p, done))
        decreases |left|
      {
        var o :| o in left;
        ghost var t, memo1 := Now(), memo';
        BringsShape(s, t, p, memo, memo', Nothing(), ImageNames(p, done));
        memo' := MergePoisoned(o, other, cellOf, memo', p);
        BringsThen(s, t, Now(), p, memo, memo1, memo', Nothing(), Nothing(), ImageNames(p, done),
                   {NameIn(Then(p.o.desc, o))});
        PutIs(Nothing(), Top, Top, 0);
        ImageNamesPlus(p, done, o);
        left, done := left - {o}, done + {o};
      }
      assert done == p.o.st.poisoned;
      PoisonNamesAre(p);
    }

    /** Enter one register of the shard. */
    method MergeReg(g: nat, r: nat, other: Builder, cellOf: map<nat, (nat, nat)>, memo: Memo, gbase: nat, ghost p: Plan)
      returns (memo': Memo)
      requires this != other && pt != other.pt && p.o == other.Now().tie && Solid(other.Now()) && gbase == p.gb
      requires (g, r) in p.o.regs
      requires Solid(Now()) && MemoShape(Now().tie, p, memo) && IsInverse(p.o.st.cells, cellOf)
      modifies `globalObj, `objGlobal, `desc, `regNode, pt
      ensures Brings(old(Now()), Now(), p, memo, memo', Nothing(), {})
      ensures regNode.Keys == old(regNode).Keys + {(g + gbase, r)}
    {
      hide Solid, Brings, MemoShape, Tied, Mid, IsInverse, Good, Lower, Shape, RegsMoved, Nothing;
      ghost var s := Now();
      RegIn(other.Now(), (g, r));
      var a;
      a, memo' := Remap(other.regNode[(g, r)], other, cellOf, memo, p);
      ghost var t := Now();
      RegBrought(s, t, p, memo, memo', Nothing(), {}, g, r);
      regNode := regNode[(g + gbase, r) := a];
      assert Now() == t.(tie := t.tie.(regs := t.tie.regs[(g + p.gb, r) := memo'[p.o.regs[(g, r)]]]));
    }

    /** Enter the registers of the shard. */
    method MergeRegs(other: Builder, cellOf: map<nat, (nat, nat)>, memo: Memo, gbase: nat, ghost p: Plan)
      returns (memo': Memo)
      requires this != other && pt != other.pt && p.o == other.Now().tie && Solid(other.Now()) && gbase == p.gb
      requires Solid(Now()) && MemoShape(Now().tie, p, memo) && IsInverse(p.o.st.cells, cellOf)
      modifies `globalObj, `objGlobal, `desc, `regNode, pt
      ensures Brings(old(Now()), Now(), p, memo, memo', Nothing(), {}) && RegsMoved(Now().tie, p)
    {
      hide Solid, Brings, MemoShape, Tied, Mid, IsInverse, Good, Shape;
      ghost var s := Now();
      BringsNothing(s, p, memo);
      memo' := memo;
      var left: set<(nat, nat)> := other.regNode.Keys;
      while left != {}
        invariant left <= p.o.regs.Keys
        invariant Brings(s, Now(), p, memo, memo', Nothing(), {})
        invariant forall g: nat, r: nat :: (g, r) in p.o.regs && (g, r) !in left ==> (g + gbase, r) in regNode.Keys
        decreases |left|
      {
        var k: (nat, nat) :| k in left;
        ghost var t, memo1 := Now(), memo';
        BringsShape(s, t, p, memo, memo', Nothing(), {});
        memo' := MergeReg(k.0, k.1, other, cellOf, memo', gbase, p);
        BringsQuiet(s, t, Now(), p, memo, memo1, memo', Nothing(), {});
        left := left - {k};
      }
    }

    /** Nodes of the shard, translated one by one. */
    method MergeNodes(other: Builder, ghost p: Plan)
      requires this != other && pt != other.pt && Solid(other.Now()) && Solid(Now())
      requires p == Plan(other.Now().tie, next, other.next, units, other.units)
      modifies `globalObj, `objGlobal, `desc, `regNode, pt
      ensures Solid(Now()) && MergedIn(old(Now()), Now(), p, other.Now().raw)
    {
      hide Solid, Brings, MemoShape, Tied, Mid, IsInverse, Good, Shape, ReadLists, ShiftLists, Plus, PoisonNames,
        RegsMoved, MergedIn, Nothing;
      ghost var s, ls := Now(), ShiftLists(ReadLists(p.o.desc, other.Now().raw), p.gb, p.ub);
      var cellOf := Invert(other.pt.fieldCell);
      MemoStart(s, other.Now(), p);
      var memo := MergeLists(other, cellOf, map[TOP := TOP], p);
      ghost var t0 := Now();
      BringsShape(s, t0, p, map[TOP := TOP], memo, ls, {});
      var memo1 := MergePoison(other, cellOf, memo, p);
      ghost var t1 := Now();
      BringsShape(t0, t1, p, memo, memo1, Nothing(), PoisonNames(p.o));
      var memo2 := MergeRegs(other, cellOf, memo1, next, p);
      MergedAtEnd(s, t0, t1, Now(), other.Now(), p, memo, memo1, memo2);
    }

    /** Fold in a builder that took in later modules, unless there are too many nodes already. */
    method Merge(other: Builder)
      requires Valid() && other.Valid() && this != other && pt != other.pt
      modifies this, pt
      ensures Valid() && pt == old(pt)
      ensures Exact() ==> old(Exact()) && other.Exact() && Means() == Merged(old(Means()), other.Means())
      ensures old(pt.n) >= MAX_NODES ==> pt.n == old(pt.n) && Means() == old(Means())
    {
      hide Solid, Tied, ReadLists, ShiftLists, Plus, PoisonNames, MergedIn, MergeTables, Merged, Good;
      if pt.n >= MAX_NODES {
        return;
      }
      ghost var s, r := Now(), Means();
      ghost var p := Plan(other.Now().tie, next, other.next, units, other.units);
      MergeAll(other, p);
      MergedMeans(s, Now(), p, r, other.Now().raw, other.Means());
    }

    method MergeAll(other: Builder, ghost p: Plan)
      requires this != other && pt != other.pt && Solid(other.Now()) && Solid(Now())
      requires p == Plan(other.Now().tie, next, other.next, units, other.units)
      modifies `regNode, `globalObj, `objGlobal, `desc, `deferred, `next, `nameToGfid, `fnParams, `gfidMeta, `fnNames,
        `knownConstGlobals, `units, `exact
      modifies pt
      ensures Solid(Now()) && MergedIn(old(Now()), Now(), p, other.Now().raw)
      ensures KnownTables() == MergeTables(old(KnownTables()), other.KnownTables()) && units == old(units) + other.units
      ensures exact == (old(exact) && other.Exact())
    {
      hide Solid, Tied, ReadLists, ShiftLists, Plus, PoisonNames, MergedIn, MergeTables, Good;
      MergeNodes(other, p);
      MergeNames(other);
      CountIn(other);
    }

    /** Tables keyed by function id or by name. */
    method MergeNames(other: Builder)
      requires this != other
      modifies `next, `nameToGfid, `fnParams, `gfidMeta, `fnNames, `knownConstGlobals, `deferred
      ensures KnownTables() == MergeTables(old(KnownTables()), other.KnownTables())
    {
      hide Rebased, Names, ShiftDeferred;
      fnParams, gfidMeta := fnParams + Rebased(other.fnParams, next), gfidMeta + Rebased(other.gfidMeta, next);
      nameToGfid, fnNames := Names(nameToGfid, other.nameToGfid, next), fnNames + other.fnNames;
      knownConstGlobals, deferred, next :=
        knownConstGlobals + other.knownConstGlobals, deferred + ShiftDeferred(other.deferred, next), next + other.next;
    }

    ghost method CountIn(other: Builder)
      requires this != other
      modifies `units, `exact
      ensures units == old(units) + other.units && exact == (old(exact) && other.Exact())
    {
      exact, units := exact && other.Exact(), units + other.units;
    }
  }

  /** The shard is in: its constraints, its poisoned globals, and order for the modules of both. */
  ghost predicate MergedIn(s: Snap, t: Snap, p: Plan, raw: Lists<nat>) {
    && s.tie.st.n <= t.tie.st.n
    && (Small(t.tie) && Tied(s.tie, Bounds(p.gb, p.gb, p.ub, 0)) && Tied(p.o, Inner(p)) ==>
          && Tied(t.tie, Bounds(p.gb + p.on, p.gb + p.on, p.ub + p.ou, 0))
          && ReadLists(t.tie.desc, t.raw) ==
              Plus(ReadLists(s.tie.desc, s.raw), ShiftLists(ReadLists(p.o.desc, raw), p.gb, p.ub))
          && PoisonNames(t.tie) == PoisonNames(s.tie) + PoisonNames(p.o))
  }

  lemma MemoStart(s: Snap, o: Snap, p: Plan)
    requires Solid(s) && Solid(o) && p.o == o.tie
    ensures MemoShape(s.tie, p, map[TOP := TOP])
  {
    SolidParts(s);
    SolidParts(o);
  }

  lemma MergedAtEnd(s: Snap, t0: Snap, t1: Snap, t: Snap, o: Snap, p: Plan, memo: Memo, memo1: Memo, memo2: Memo)
    requires Solid(o) && p.o == o.tie
    requires Brings(s, t0, p, map[TOP := TOP], memo, ShiftLists(ReadLists(p.o.desc, o.raw), p.gb, p.ub), {})
    requires Brings(t0, t1, p, memo, memo1, Nothing(), PoisonNames(p.o))
    requires Brings(t1, t, p, memo1, memo2, Nothing(), {}) && RegsMoved(t.tie, p)
    ensures Solid(t) && MergedIn(s, t, p, o.raw)
  {
    hide Solid, Brings, MemoShape, Tied, Mid, Good, Shape, ReadLists, ShiftLists, Plus, PoisonNames, RegsMoved, Nothing;
    var start, ls, ps := map[TOP := TOP], ShiftLists(ReadLists(p.o.desc, o.raw), p.gb, p.ub), PoisonNames(p.o);
    BringsThen(s, t0, t1, p, start, memo, memo1, ls, Nothing(), {}, ps);
    PutIs(ls, Top, Top, 0);
    assert {} + ps == ps;
    BringsQuiet(s, t1, t, p, start, memo1, memo2, ls, ps);
    BringsShape(s, t, p, start, memo2, ls, ps);
    SolidParts(o);
    if Small(t.tie) && Tied(s.tie, Bounds(p.gb, p.gb, p.ub, 0)) && Tied(p.o, Inner(p)) {
      MidBefore(s.tie, p);
      BringsMid(s, t, p, start, memo2, ls, ps);
      TiedAfter(t.tie, p, memo2);
    }
  }

  /** What the builder means after the merge. */
  lemma MergedMeans(s: Snap, t: Snap, p: Plan, r: Relation, raw: Lists<nat>, q: Relation)
    requires MergedIn(s, t, p, raw)
    requires r.lists == ReadLists(s.tie.desc, s.raw) && r.poisoned == PoisonNames(s.tie) && r.tables.next == p.gb
    requires r.units == p.ub
    requires q.lists == ReadLists(p.o.desc, raw) && q.poisoned == PoisonNames(p.o) && q.tables.next == p.on
    requires q.units == p.ou
    ensures s.tie.st.n <= t.tie.st.n && MergeTables(r.tables, q.tables).next == p.gb + p.on
    ensures Small(t.tie) && Tied(s.tie, Bounds(p.gb, p.gb, p.ub, 0)) && Tied(p.o, Inner(p)) ==>
              && Tied(t.tie, Bounds(p.gb + p.on, p.gb + p.on, p.ub + p.ou, 0))
              && Relation(ReadLists(t.tie.desc, t.raw), PoisonNames(t.tie), MergeTables(r.tables, q.tables),
                          r.units + q.units)
              == Merged(r, q)
  {
    hide Solid, Tied, ReadLists, ShiftLists, Plus, PoisonNames, Names, Rebased, ShiftDeferred;
  }

  // ------------------------------------------------------------ whole builds

  /** Take in modules one after the other. */
  method BuildAll(ms: seq<Unit>) returns (b: Builder)
    ensures fresh(b) && fresh(b.pt) && b.Valid() && (b.Exact() ==> b.Means() == PushedAll(EMPTY, ms))
  {
    hide Solid, Tied, ReadLists, PoisonNames, Pushed;
    b := new Builder();
    var i := 0;
    while i < |ms|
      invariant i <= |ms| && fresh(b) && fresh(b.pt) && b.Valid()
      invariant b.Exact() ==> b.Means() == PushedAll(EMPTY, ms[..i])
    {
      b.PushModule(ms[i]);
      assert ms[..i + 1][..i] == ms[..i];
      i := i + 1;
    }
    assert ms[..|ms|] == ms;
  }

  lemma MergedSnoc(shards: seq<seq<Unit>>, i: nat)
    requires i < |shards|
    ensures MergedAll(shards[..i + 1]) == Merged(MergedAll(shards[..i]), PushedAll(EMPTY, shards[i]))
  {
    assert shards[..i + 1][..i] == shards[..i];
    hide Merged, PushedAll;
  }

  lemma MergedNone()
    ensures MergedAll([]) == EMPTY
  {
  }

  /** Build shards apart and merge them in order: the relation of taking in all their modules one after the other. */
  method BuildShards(shards: seq<seq<Unit>>) returns (b: Builder)
    ensures fresh(b) && fresh(b.pt) && b.Valid() && (b.Exact() ==> b.Means() == PushedAll(EMPTY, Joined(shards)))
  {
    ShardingIrrelevant(shards);
    hide Solid, Tied, ReadLists, PoisonNames, Merged, MergedAll, PushedAll, Joined;
    MergedNone();
    b := new Builder();
    var i := 0;
    while i < |shards|
      invariant i <= |shards| && fresh(b) && fresh(b.pt) && b.Valid()
      invariant b.Exact() ==> b.Means() == MergedAll(shards[..i])
    {
      var c := BuildAll(shards[i]);
      b.Merge(c);
      MergedSnoc(shards, i);
      i := i + 1;
    }
    assert shards[..|shards|] == shards;
  }

  lemma NamesSize(st: State)
    requires Good(st)
    ensures |st.names| == st.n
  {
  }

  lemma RegIn(s: Snap, k: (nat, nat))
    requires Solid(s) && k in s.tie.regs
    ensures s.tie.regs[k] < s.tie.st.n
  {
    hide Good, ListsIn;
  }

  lemma KeptImage(s: Snap, t: Snap, p: Plan, memo: Memo, memo': Memo, x: nat)
    requires Brings(s, t, p, memo, memo', Nothing(), {}) && x in memo
    ensures x in memo' && memo'[x] == memo[x]
  {
    hide Solid, Mid, MemoShape;
  }

  lemma BringsMore(s: Snap, t: Snap, u: Snap, p: Plan, memo: Memo, memo': Memo, memo'': Memo, ls: Lists<Desc>,
                   ls': Lists<Desc>)
    requires Brings(s, t, p, memo, memo', ls, {}) && Brings(t, u, p, memo', memo'', ls', {})
    ensures Brings(s, u, p, memo, memo'', Plus(ls, ls'), {}) && Solid(u) && MemoShape(u.tie, p, memo'')
  {
    BringsThen(s, t, u, p, memo, memo', memo'', ls, ls', {}, {});
    NoMore({});
    hide Brings, Solid, MemoShape;
    BringsShape(s, u, p, memo, memo'', Plus(ls, ls'), {});
  }

  lemma SolidLists(s: Snap)
    requires Solid(s)
    ensures PairsIn(s.raw.addr, s.tie.st.n) && PairsIn(s.raw.copies, s.tie.st.n) && TriplesIn(s.raw.geps, s.tie.st.n)
    ensures PairsIn(s.raw.loads, s.tie.st.n) && PairsIn(s.raw.stores, s.tie.st.n)
  {
    ShapeSize(s);
    hide PairsIn, TriplesIn, Good;
  }

  lemma PoisonNamesAre(p: Plan)
    ensures PoisonNames(p.o) == ImageNames(p, p.o.st.poisoned)
  {
  }

  lemma ImageIn(s: Snap, t: Snap, p: Plan, memo: Memo, memo': Memo, x: nat)
    requires Brings(s, t, p, memo, memo', Nothing(), {}) && x in memo'
    ensures Solid(t) && MemoShape(t.tie, p, memo') && memo'[x] < t.tie.st.n
  {
    BringsShape(s, t, p, memo, memo', Nothing(), {});
    ShapeSize(t);
    hide Solid, Brings;
  }

  lemma CellBrought(s: Snap, t: Snap, u: Snap, p: Plan, memo: Memo, memo': Memo, x: nat, obj: nat, off: nat, y: nat)
    requires Brings(s, t, p, memo, memo', Nothing(), {}) && obj in memo' && x !in memo' && x < p.o.st.n
    requires Shape(p.o) && (obj, off) in p.o.st.cells && p.o.st.cells[(obj, off)] == x
    requires FieldGot(t, u, Outer(p), memo'[obj], off, y)
    ensures Brings(s, u, p, memo, memo'[x := y], Nothing(), {})
  {
    BringsShape(s, t, p, memo, memo', Nothing(), {});
    OffsetKnown(p.o, obj, off);
    if Small(u.tie) && Mid(t.tie, p, memo') {
      MidParts(t.tie, p, memo');
      CellImage(p, x, obj, off);
      assert Then(t.tie.desc, memo'[obj]) == Image(p, obj);
      OwnerPlain(p, x, obj, off);
      assert MayIntern(t, Outer(p), memo'[obj], off);
    }
    hide Solid, Brings, MemoShape, Built, Tied, Mid, Image, Shape, FieldOf;
    ImageBrought(t, u, p, memo', x, y);
    BringsQuiet(s, t, u, p, memo, memo', memo'[x := y], Nothing(), {});
  }

  /** A field's owner is no register, and neither is its image. */
  lemma OwnerPlain(p: Plan, x: nat, obj: nat, off: nat)
    requires Shape(p.o) && Tied(p.o, Inner(p)) && (obj, off) in p.o.st.cells && p.o.st.cells[(obj, off)] == x
    ensures !Image(p, obj).RegOf?
  {
    CellRange(p.o);
    TiedParts(p.o, Inner(p));
    hide Tied, RegsTied, GlobalsTied, PoisonTied, Shape;
    assert Then(p.o.desc, x) == CellOf(Then(p.o.desc, obj), off);
    assert x < |p.o.desc| ==> Allowed(p.o.desc[x], Inner(p));
  }

  lemma OffsetKnown(t: Tie, obj: nat, off: nat)
    requires Shape(t) && (obj, off) in t.st.cells
    ensures off != ANY_OFFSET
  {
  }

  lemma GlobalBrought(s: Snap, t: Snap, p: Plan, memo: Memo, x: nat, y: nat)
    requires Solid(s) && MemoShape(s.tie, p, memo) && x !in memo && x < p.o.st.n && x in p.o.names
    requires Built(s, t, Outer(p), Outer(p), Nothing(), {}) && StandsFor(s, t, Outer(p), y, GlobalOf(p.o.names[x]))
    requires t.tie.desc == s.tie.desc || t.tie.desc == s.tie.desc + [GlobalOf(p.o.names[x])]
    ensures Brings(s, t, p, memo, memo[x := y], Nothing(), {})
  {
    BuiltSolid(s, t, Outer(p), Outer(p), Nothing(), {});
    if Small(t.tie) && Mid(s.tie, p, memo) {
      MidParts(s.tie, p, memo);
      GlobalImage(p, x);
    }
    hide Solid, Brings, MemoShape, Built, Tied, Mid, Image, Shape;
    ImageBrought(s, t, p, memo, x, y);
  }

  lemma NodeBrought(s: Snap, t: Snap, p: Plan, memo: Memo, x: nat, y: nat)
    requires Solid(s) && MemoShape(s.tie, p, memo) && Shape(p.o) && x !in memo && x < p.o.st.n
    requires !IsCell(p.o.st, x) && x !in p.o.names
    requires NodeGot(s, t, Outer(p), Outer(p), y, Image(p, x))
    requires t.tie.desc == s.tie.desc + [Image(p, x)] && y == |s.tie.desc|
    ensures Brings(s, t, p, memo, memo[x := y], Nothing(), {})
  {
    ShapeIs(p.o);
    assert TOP in memo;
    if Small(t.tie) && Mid(s.tie, p, memo) {
      MidParts(s.tie, p, memo);
      hide Tied, Shape, Mid, MemoShape, Image;
      PlainNode(p, x);
      ImageFresh(s.tie, p, memo, x);
      assert NodeFits(s, Image(p, x), Outer(p), Outer(p));
    }
    hide Solid, Brings, MemoShape, Built, Tied, Mid, Image, Shape, NodeFits;
    ImageBrought(s, t, p, memo, x, y);
  }

  lemma FnsKeep(t: Tables, fns: seq<Fn>, base: nat)
    ensures EnterFns(t, fns, base).next == t.next && EnterFns(t, fns, base).deferred == t.deferred
  {
    FnsEntered(t, t, fns, base);
  }

  lemma InitsKeep(t: Tables, inits: seq<Init>, fns: seq<Fn>)
    ensures EnterInits(t, inits, fns).next == t.next && EnterInits(t, inits, fns).deferred == t.deferred
  {
    InitsEntered(t, t, inits, fns);
  }

  lemma NextPushed(t: Tables, m: Unit)
    ensures PushTables(t, m).next == t.next + |m.fns|
  {
  }

  lemma GlobalIs(s: Snap, t: Snap, b: Bounds, x: nat, name: string)
    requires StandsFor(s, t, b, x, GlobalOf(name)) && Built(s, t, b, b, Nothing(), {})
    ensures x < |t.tie.desc|
    ensures Small(t.tie) && Tied(s.tie, b) ==> Then(t.tie.desc, x) == GlobalOf(name) && Tied(t.tie, b)
  {
    hide Solid, Tied, Plus, ReadLists, PoisonNames;
  }

  lemma ShapeSize(s: Snap)
    requires Solid(s)
    ensures |s.tie.desc| == s.tie.st.n
  {
    hide Good, ListsIn;
  }

  lemma CellBuilt(s: Snap, t: Snap, u: Snap, b: Bounds, obj: nat, name: string, off: nat, cell: nat)
    requires Built(s, t, b, b, Nothing(), {}) && StandsFor(s, t, b, obj, GlobalOf(name))
    requires FieldGot(t, u, b, obj, off, cell)
    ensures Built(s, u, b, b, Nothing(), if off == ANY_OFFSET then {name} else {})
    ensures StandsFor(s, u, b, cell, FieldOf(GlobalOf(name), off))
  {
    GlobalIs(s, t, b, obj, name);
    BuiltSolid(s, t, b, b, Nothing(), {});
    if Small(u.tie) && Tied(s.tie, b) {
      TiedParts(t.tie, b);
      assert MayIntern(t, b, obj, off);
      CellOnGlobal(s, t, u, b, obj, name, off, cell);
    } else {
      hide Tied, Solid, Nothing;
    }
  }

  lemma CellOnGlobal(s: Snap, t: Snap, u: Snap, b: Bounds, obj: nat, name: string, off: nat, cell: nat)
    requires Built(s, t, b, b, Nothing(), {}) && Then(t.tie.desc, obj) == GlobalOf(name) && obj != TOP
    requires Built(t, u, b, b, Nothing(), FieldPoison(t, obj, off))
    requires StandsFor(t, u, b, cell, FieldOf(GlobalOf(name), off))
    ensures Built(s, u, b, b, Nothing(), if off == ANY_OFFSET then {name} else {})
    ensures StandsFor(s, u, b, cell, FieldOf(GlobalOf(name), off))
  {
    var fp := FieldPoison(t, obj, off);
    hide Built, StandsFor, Tied, Plus, Solid;
    BuiltThen(s, t, u, b, b, b, Nothing(), Nothing(), {}, fp);
    PutIs(Nothing(), Top, Top, 0);
    StandsLater(s, t, u, b, b, b, Nothing(), Nothing(), {}, fp, cell, FieldOf(GlobalOf(name), off));
    assert {} + fp == fp;
  }

  /** A module is in: what the builder means has grown by it. */
  lemma ModulePushed(s: Snap, t: Snap, r: Relation, m: Unit, k: nat)
    requires var n := r.tables.next; var b := Bounds(n + |m.fns|, n + |m.fns|, r.units, 0);
             Built(s, t, b, b.(k := k), OfUnit(m, n, r.units), PoisonedBy(m.inits, m.fns))
    requires r.lists == ReadLists(s.tie.desc, s.raw) && r.poisoned == PoisonNames(s.tie)
    ensures Solid(t) && s.tie.st.n <= t.tie.st.n
    ensures Small(t.tie) && Tied(s.tie, Bounds(r.tables.next, r.tables.next, r.units, 0)) ==>
              && Tied(t.tie, Bounds(PushTables(r.tables, m).next, PushTables(r.tables, m).next, r.units + 1, 0))
              && Relation(ReadLists(t.tie.desc, t.raw), PoisonNames(t.tie), PushTables(r.tables, m), r.units + 1) ==
                  Pushed(r, m)
  {
    NextPushed(r.tables, m);
    hide Tied, Solid, OfUnit, PoisonedBy, Plus, PushTables, ReadLists, PoisonNames;
    if Small(t.tie) && Tied(s.tie, Bounds(r.tables.next, r.tables.next, r.units, 0)) {
      TiedWider(s.tie, r.tables.next, |m.fns|, r.units);
      TiedNext(t.tie, r.tables.next + |m.fns|, r.units, k);
    }
  }

  lemma PoisonedByNone(fns: seq<Fn>)
    ensures PoisonedBy([], fns) == {}
  {
  }

  lemma PoisonedBySnoc(inits: seq<Init>, i: Init, fns: seq<Fn>)
    ensures PoisonedBy(inits + [i], fns) == PoisonedBy(inits, fns) + PoisonedBy([i], fns)
  {
  }

  lemma PoisonedByOne(i: Init, fns: seq<Fn>)
    ensures PoisonedBy([i], fns) == if i.off == ANY_OFFSET && TargetName(i, fns).Some? then {i.global} else {}
  {
    assert i in [i];
  }

  lemma LocalNew(t: Tie, b: Bounds)
    requires Tied(t, b)
    ensures Local(b.u, b.k) !in t.desc
  {
    LocalFresh(t.desc, b);
    hide Distinct, CellsTied, RegsTied, GlobalsTied, Bounded, PoisonTied;
  }

  lemma BuiltSolid(s: Snap, t: Snap, b: Bounds, b': Bounds, ls: Lists<Desc>, ps: set<string>)
    requires Built(s, t, b, b', ls, ps)
    ensures Solid(t) && s.tie.st.n <= t.tie.st.n && s.tie.desc <= t.tie.desc
  {
    hide Solid, Tied, Reached;
  }

  lemma StandsRaw(s: Snap, t: Snap, b: Bounds, x: nat, d: Desc, raw: Lists<nat>)
    requires StandsFor(s, t, b, x, d)
    ensures StandsFor(s, t.(raw := raw), b, x, d)
  {
    hide Tied;
  }

  lemma OperandNone(v: Value, g: nat, unit: nat, k: nat)
    ensures var (d, ls, k') := Operand(v, g, unit, k); d.None? ==> ls == Nothing() && k' == k
  {
  }

  lemma EmptyTied(s: Snap)
    requires s.tie.desc == [Top] && s.raw == Nothing() && s.tie.regs == map[] && s.tie.globals == map[]
    requires s.tie.names == map[]
    requires s.tie.st.cells == map[] && s.tie.st.poisoned == {} && Good(s.tie.st) && s.tie.st.n == 1
    requires Unsolved(s.tie.st)
    ensures Solid(s) && Tied(s.tie, Bounds(0, 0, 0, 0)) && ReadLists(s.tie.desc, s.raw) == Nothing()
    ensures PoisonNames(s.tie) == {}
  {
    hide Good;
  }

  lemma SolidParts(s: Snap)
    requires Solid(s)
    ensures Shape(s.tie) && Good(s.tie.st) && |s.tie.desc| == s.tie.st.n && 0 < s.tie.st.n
    ensures forall k :: k in s.tie.regs ==> s.tie.regs[k] < s.tie.st.n
    ensures forall name :: name in s.tie.globals ==> s.tie.globals[name] < s.tie.st.n
  {
  }

  lemma SolidGrows(s: Snap, t: Snap)
    requires Solid(s) && Shape(t.tie) && s.tie.desc <= t.tie.desc && t.raw == s.raw
    ensures Solid(t) && ReadLists(t.tie.desc, t.raw) == ReadLists(s.tie.desc, s.raw)
  {
    ListsStay(s.tie.desc, t.tie.desc, s.raw);
    hide Shape, ListsIn, ReadLists;
  }

  /** A step that only adds nodes. */
  lemma GrowthBuilt(s: Snap, t: Snap, b: Bounds, b': Bounds, ps: set<string>)
    requires Solid(s) && Shape(t.tie) && s.tie.desc <= t.tie.desc && t.raw == s.raw && s.tie.st.n <= t.tie.st.n
    requires Small(t.tie) && Tied(s.tie, b) ==> Tied(t.tie, b') && PoisonNames(t.tie) == PoisonNames(s.tie) + ps
    ensures Built(s, t, b, b', Nothing(), ps)
  {
    SolidGrows(s, t);
    PutIs(ReadLists(s.tie.desc, s.raw), Top, Top, 0);
    hide Solid, Shape, Tied, ReadLists, Plus, PoisonNames;
  }

  lemma FreshShape(s: Snap, d: Desc)
    requires Solid(s)
    ensures Shape(WithNode(s.tie, d)) && WithNode(s.tie, d).st.n == s.tie.st.n + 1
  {
    PointsTo.NewVarGood(s.tie.st);
    WithNodeShape(s.tie, d);
    hide Shape, Good, ListsIn;
  }

  /** The description is new, and within the bounds. */
  ghost predicate NodeFits(s: Snap, d: Desc, b: Bounds, b': Bounds) {
    && b.known == b'.known && b.g <= b'.g && (b.u < b'.u || (b.u == b'.u && b.k <= b'.k))
    && (d.RegOf? || d.Local?) && (d.RegOf? ==> d.g >= b.known) && Allowed(d, b')
    && (Small(s.tie) && Tied(s.tie, b) ==> d !in s.tie.desc)
  }

  ghost predicate NodeGot(s: Snap, t: Snap, b: Bounds, b': Bounds, x: nat, d: Desc) {
    && Grown(s, t) && x < |t.tie.desc|
    && (NodeFits(s, d, b, b') ==> Built(s, t, b, b', Nothing(), {}) && StandsFor(s, t, b, x, d))
  }

  lemma NodeBuilt(s: Snap, d: Desc, b: Bounds, b': Bounds)
    requires Solid(s)
    ensures var t := s.(tie := WithNode(s.tie, d)); NodeGot(s, t, b, b', s.tie.st.n, d)
  {
    var t := s.(tie := WithNode(s.tie, d));
    FreshShape(s, d);
    SolidParts(s);
    SolidGrows(s, t);
    if NodeFits(s, d, b, b') {
      if Small(t.tie) && Tied(s.tie, b) {
        NodeTied(s.tie, d, b, b');
        SnocPoison(s.tie, d);
        NoMore(PoisonNames(s.tie));
      }
      hide Tied, Shape, ListsIn, PoisonNames, Good, Built, Fresh, NodeFits;
      GrowthBuilt(s, t, b, b', {});
    }
    hide Tied, Shape, ListsIn, Built, Fresh, NodeFits;
  }

  lemma RegStands(s: Snap, g: nat, r: nat, b: Bounds)
    requires Solid(s) && (g, r) in s.tie.regs
    ensures Built(s, s, b, b, Nothing(), {}) && StandsFor(s, s, b, s.tie.regs[(g, r)], RegOf(g, r))
  {
    BuiltSelf(s, b);
    SolidParts(s);
    hide Built, Solid, Distinct, CellsTied, GlobalsTied, Bounded, PoisonTied, Good;
    if Tied(s.tie, b) {
      assert Then(s.tie.desc, s.tie.regs[(g, r)]) == RegOf(g, r);
    }
  }

  lemma RegBuilt(s: Snap, g: nat, r: nat, b: Bounds)
    requires Solid(s) && g < b.known <= b.g && (g, r) !in s.tie.regs
    ensures var t := s.(tie := WithReg(s.tie, g, r));
            Built(s, t, b, b, Nothing(), {}) && StandsFor(s, t, b, s.tie.st.n, RegOf(g, r))
  {
    var d := RegOf(g, r);
    var t := s.(tie := WithReg(s.tie, g, r));
    FreshShape(s, d);
    RegShape(WithNode(s.tie, d), t.tie.regs, (g, r));
    SolidParts(s);
    if Small(t.tie) && Tied(s.tie, b) {
      RegTied(s.tie, g, r, b);
      SnocPoison(s.tie, d);
      OtherRegs(WithNode(s.tie, d), t.tie.regs);
      NoMore(PoisonNames(s.tie));
    }
    hide Tied, Shape, ListsIn, PoisonNames, Good, Built, Fresh;
    GrowthBuilt(s, t, b, b, {});
  }

  lemma RegShape(t: Tie, regs: map<(nat, nat), nat>, k: (nat, nat))
    requires Shape(t) && k in regs && regs == t.regs[k := regs[k]] && regs[k] < t.st.n
    ensures Shape(t.(regs := regs))
  {
    hide Good;
  }

  lemma GlobalStands(s: Snap, name: string, b: Bounds)
    requires Solid(s) && name in s.tie.globals
    ensures Built(s, s, b, b, Nothing(), {}) && StandsFor(s, s, b, s.tie.globals[name], GlobalOf(name))
  {
    BuiltSelf(s, b);
    SolidParts(s);
    hide Built, Solid, Distinct, CellsTied, RegsTied, Bounded, PoisonTied, Good;
    if Tied(s.tie, b) {
      assert Then(s.tie.desc, s.tie.globals[name]) == GlobalOf(name);
    }
  }

  lemma GlobalBuilt(s: Snap, name: string, b: Bounds)
    requires Solid(s) && name !in s.tie.globals
    ensures var t := s.(tie := WithGlobal(s.tie, name));
            Built(s, t, b, b, Nothing(), {}) && StandsFor(s, t, b, s.tie.st.n, GlobalOf(name))
  {
    var d := GlobalOf(name);
    var t := s.(tie := WithGlobal(s.tie, name));
    FreshShape(s, d);
    GlobalShape(WithNode(s.tie, d), name, s.tie.st.n, t.tie.names);
    SolidParts(s);
    if Small(t.tie) && Tied(s.tie, b) {
      GlobalTied(s.tie, name, b);
      SnocPoison(s.tie, d);
      OtherGlobals(WithNode(s.tie, d), t.tie.globals, t.tie.names, 0);
      NoMore(PoisonNames(s.tie));
    }
    hide Tied, Shape, ListsIn, PoisonNames, Good, Built, Fresh;
    GrowthBuilt(s, t, b, b, {});
  }

  lemma GlobalShape(t: Tie, name: string, x: nat, names: map<nat, string>)
    requires Shape(t) && x < t.st.n && forall y: nat :: y in names ==> y < t.st.n
    ensures Shape(t.(globals := t.globals[name := x], names := names))
  {
    hide Good;
  }

  ghost function FieldPoison(s: Snap, o: nat, off: nat): set<string> {
    if off == ANY_OFFSET && o != TOP then {NameIn(Then(s.tie.desc, o))} else {}
  }

  /** Only TOP and globals may be poisoned, and a register has no fields. */
  ghost predicate MayIntern(s: Snap, b: Bounds, o: nat, off: nat) {
    Tied(s.tie, b) && Small(s.tie) ==>
      if off == ANY_OFFSET then o == TOP || Then(s.tie.desc, o).GlobalOf? else !Then(s.tie.desc, o).RegOf?
  }

  predicate NewIsCell(desc: seq<Desc>, desc': seq<Desc>) {
    forall z: nat :: |desc| <= z < |desc'| ==> desc'[z].CellOf?
  }

  /** Node `c` is the field of `o` at `off`. */
  ghost predicate FieldGot(s: Snap, t: Snap, b: Bounds, o: nat, off: nat, c: nat) {
    && Grown(s, t) && c < |t.tie.desc| && NewIsCell(s.tie.desc, t.tie.desc)
    && (MayIntern(s, b, o, off) ==>
          && Built(s, t, b, b, Nothing(), FieldPoison(s, o, off))
          && StandsFor(s, t, b, c, FieldOf(Then(s.tie.desc, o), off)))
  }

  lemma FieldReached(s: Snap, o: nat, off: nat, b: Bounds)
    requires Solid(s) && Shape(s.tie) && o < s.tie.st.n && MayIntern(s, b, o, off)
    requires Small(WithField(s.tie, o, off)) && Tied(s.tie, b)
    ensures var t := WithField(s.tie, o, off);
            && Tied(t, b) && PoisonNames(t) == PoisonNames(s.tie) + FieldPoison(s, o, off)
            && FieldNode(t.st, o, off).Some? &&
                Then(t.desc, FieldNode(t.st, o, off).value) == FieldOf(Then(s.tie.desc, o), off)
  {
    SolidParts(s);
    WithFieldShape(s.tie, o, off);
    FieldTied(s.tie, o, off, b);
    hide Tied, ListsIn, PoisonNames, Good, Interned, Solid;
  }

  lemma FieldBuilt(s: Snap, o: nat, off: nat, b: Bounds)
    requires Solid(s) && o < s.tie.st.n
    ensures Shape(s.tie) && FieldNode(WithField(s.tie, o, off).st, o, off).Some?
    ensures var t := s.(tie := WithField(s.tie, o, off)); FieldGot(s, t, b, o, off, FieldNode(t.tie.st, o, off).value)
  {
    hide Tied, ListsIn, PoisonNames, Good, Built, Interned, Solid, MayIntern, Shape, WithField;
    SolidParts(s);
    WithFieldShape(s.tie, o, off);
    var t := s.(tie := WithField(s.tie, o, off));
    SolidGrows(s, t);
    FieldNodeIn(s.tie, o, off);
    NewFieldIsCell(s.tie, o, off);
    if MayIntern(s, b, o, off) {
      if Small(t.tie) && Tied(s.tie, b) {
        FieldReached(s, o, off, b);
      }
      GrowthBuilt(s, t, b, b, FieldPoison(s, o, off));
    }
  }

  lemma NewFieldIsCell(t: Tie, o: nat, off: nat)
    requires Shape(t) && o < t.st.n
    ensures NewIsCell(t.desc, WithField(t, o, off).desc)
  {
  }

  lemma FieldNodeIn(t: Tie, o: nat, off: nat)
    requires Shape(t) && o < t.st.n
    ensures FieldNode(WithField(t, o, off).st, o, off).Some?
    ensures FieldNode(WithField(t, o, off).st, o, off).value < |WithField(t, o, off).desc|
  {
    InternedGood(t.st, o, off);
    WithFieldShape(t, o, off);
    hide Good;
  }
}
