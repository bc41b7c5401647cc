/**
 From modules to answers: building the relation in shards, collapsing its copy
 cycles and solving it fit together (crates/absint/src/pointsto.rs:674-883).
 */
module WholeProgram {
  import opened PointsToRules
  import opened Shards
  import opened Numbering
  import opened ModuleRuns
  import opened ModuleFacts
  import Quotient
  import Collapse
  import Building
  import PointsTo
  import G = Graphs

  // ------------------------------------------------------------ what modules contribute

  /** Copies go into registers, and what has an address is no register. */
  ghost predicate Tame(ls: Lists<Desc>) {
    && (forall i :: 0 <= i < |ls.copies| ==> ls.copies[i].0.RegOf?)
    && (forall i :: 0 <= i < |ls.addr| ==> !ls.addr[i].1.RegOf?)
  }

  /** No field is accessed at an unknown offset. */
  ghost predicate Offsets(ls: Lists<Desc>) {
    forall i :: 0 <= i < |ls.geps| ==> ls.geps[i].2 != ANY_OFFSET
  }

  lemma TamePlus(a: Lists<Desc>, b: Lists<Desc>)
    requires Tame(a) && Tame(b)
    ensures Tame(Plus(a, b)) && (Offsets(a) && Offsets(b) ==> Offsets(Plus(a, b)))
  {
  }

  lemma NothingTame()
    ensures Tame(Nothing()) && Offsets(Nothing())
  {
  }

  /** The instruction names every offset it uses, and copies no memory wholesale. */
  predicate KnownOffset(i: Inst) {
    match i
    case Offset(_, _, bytes) => bytes.Some? && bytes.value != ANY_OFFSET
    case FieldPtr(_, _) => false
    case Bulk(target) => target == Unknown
    case _ => true
  }

  ghost predicate KnownOffsets(insts: seq<Inst>) {
    forall i :: 0 <= i < |insts| ==> KnownOffset(insts[i])
  }

  ghost predicate PlainFns(fns: seq<Fn>) {
    forall i :: 0 <= i < |fns| ==> KnownOffsets(fns[i].insts)
  }

  ghost predicate PlainUnits(ms: seq<Unit>) {
    forall i :: 0 <= i < |ms| ==> PlainFns(ms[i].fns)
  }

  lemma OfInstTame(i: Inst, g: nat, unit: nat, k: nat)
    ensures Tame(OfInst(i, g, unit, k).0) && (KnownOffset(i) ==> Offsets(OfInst(i, g, unit, k).0))
  {
    OfInstCopies(i, g, unit, k);
    OfInstAddresses(i, g, unit, k);
    OfInstOffsets(i, g, unit, k);
    hide OfInst, Offsets, KnownOffset;
  }

  lemma OfInstCopies(i: Inst, g: nat, unit: nat, k: nat)
    ensures var ls := OfInst(i, g, unit, k).0; forall n :: 0 <= n < |ls.copies| ==> ls.copies[n].0.RegOf?
  {
  }

  lemma OfInstAddresses(i: Inst, g: nat, unit: nat, k: nat)
    ensures var ls := OfInst(i, g, unit, k).0; forall n :: 0 <= n < |ls.addr| ==> !ls.addr[n].1.RegOf?
  {
  }

  lemma OfInstOffsets(i: Inst, g: nat, unit: nat, k: nat)
    ensures KnownOffset(i) ==> Offsets(OfInst(i, g, unit, k).0)
  {
  }

  lemma {:induction false} OfInstsTame(insts: seq<Inst>, g: nat, unit: nat, k: nat)
    ensures Tame(OfInsts(insts, g, unit, k).0) && (KnownOffsets(insts) ==> Offsets(OfInsts(insts, g, unit, k).0))
  {
    if insts != [] {
      var n := |insts| - 1;
      var (ls, k') := OfInsts(insts[..n], g, unit, k);
      OfInstsTame(insts[..n], g, unit, k);
      OfInstTame(insts[n], g, unit, k');
      TamePlus(ls, OfInst(insts[n], g, unit, k').0);
      hide OfInst, Tame, Offsets, KnownOffset;
    }
  }

  lemma {:induction false} OfFnsTame(fns: seq<Fn>, base: nat, unit: nat)
    ensures Tame(OfFns(fns, base, unit).0) && (PlainFns(fns) ==> Offsets(OfFns(fns, base, unit).0))
  {
    hide OfInsts, Tame, Offsets, KnownOffsets;
    if fns == [] {
      NothingTame();
    } else {
      var n := |fns| - 1;
      var (ls, k) := OfFns(fns[..n], base, unit);
      OfFnsTame(fns[..n], base, unit);
      OfInstsTame(fns[n].insts, base + n, unit, k);
      TamePlus(ls, OfInsts(fns[n].insts, base + n, unit, k).0);
    }
  }

  lemma {:induction false} OfInitsTame(inits: seq<Init>, fns: seq<Fn>)
    ensures Tame(OfInits(inits, fns)) && Offsets(OfInits(inits, fns))
  {
    if inits != [] {
      var n := |inits| - 1;
      OfInitsTame(inits[..n], fns);
      TamePlus(OfInits(inits[..n], fns), OfInit(inits[n], fns));
    }
  }

  lemma {:induction false} PushedTame(ms: seq<Unit>)
    ensures Tame(PushedAll(EMPTY, ms).lists) && (PlainUnits(ms) ==> Offsets(PushedAll(EMPTY, ms).lists))
  {
    if ms != [] {
      var n := |ms| - 1;
      var r, m := PushedAll(EMPTY, ms[..n]), ms[n];
      PushedTame(ms[..n]);
      OfInitsTame(m.inits, m.fns);
      OfFnsTame(m.fns, r.tables.next, r.units);
      hide OfInits, OfFns, Tame, Offsets, PlainFns, PushTables, PoisonedBy;
      TamePlus(OfInits(m.inits, m.fns), OfFns(m.fns, r.tables.next, r.units).0);
      TamePlus(r.lists, OfUnit(m, r.tables.next, r.units));
    }
  }

  // ------------------------------------------------------------ objects lie on no copy cycle

  ghost predicate IsReg(s: Snap, x: nat) {
    Then(s.tie.desc, x).RegOf?
  }

  lemma CopiedReg(s: Snap, d: nat, src: nat)
    requires Tame(ReadLists(s.tie.desc, s.raw)) && (d, src) in s.raw.copies
    ensures IsReg(s, d)
  {
    var l := s.raw.copies;
    var i :| 0 <= i < |l| && l[i] == (d, src);
    assert ReadPairs(s.tie.desc, l)[i].0 == Then(s.tie.desc, d);
  }

  lemma AddressedPlain(s: Snap, p: nat, o: nat)
    requires Tame(ReadLists(s.tie.desc, s.raw)) && (p, o) in s.raw.addr
    ensures !IsReg(s, o)
  {
    var l := s.raw.addr;
    var i :| 0 <= i < |l| && l[i] == (p, o);
    assert ReadPairs(s.tie.desc, l)[i].1 == Then(s.tie.desc, o);
  }

  /** What no copy leads into is merged with nothing. */
  lemma PlainAlone(s: Snap, h: seq<nat>, g: G.Graph, x: nat)
    requires Tame(ReadLists(s.tie.desc, s.raw)) && Collapse.MergesExactly(SystemOf(s), h, g)
    requires x < |h| && !IsReg(s, x)
    ensures Quotient.Alone(h, x)
  {
    hide Tame, ReadLists, IsReg;
    forall y: nat | y < |h| && h[y] == h[x] ensures y == x {
      var p :| G.PathFromTo(g, p, y, x);
      if |p| > 1 {
        var i, j := |p| - 2, |p| - 1;
        assert g.Edge(p[i], p[j]);
        CopiedReg(s, x, p[i]);
        assert false;
      }
    }
  }

  lemma CellsPlain(s: Snap, b: Bounds, o: nat, off: nat)
    requires Solid(s) && Tied(s.tie, b) && (o, off) in s.tie.st.cells
    ensures !IsReg(s, o) && !IsReg(s, s.tie.st.cells[(o, off)])
    ensures o < s.tie.st.n && s.tie.st.cells[(o, off)] < s.tie.st.n
  {
    CellRange(s.tie);
    TiedParts(s.tie, b);
    hide Tied, RegsTied, GlobalsTied, PoisonTied, Shape, ListsIn;
    var c := s.tie.st.cells[(o, off)];
    assert Then(s.tie.desc, c) == CellOf(Then(s.tie.desc, o), off);
    assert c < |s.tie.desc| ==> Allowed(s.tie.desc[c], b);
  }

  lemma MarksPlain(s: Snap, b: Bounds)
    requires Solid(s) && Tied(s.tie, b)
    ensures 0 < s.tie.st.n && !IsReg(s, TOP)
    ensures forall x: nat, o: nat :: x < |s.tie.st.pts| && o in s.tie.st.pts[x] ==> o == TOP
    ensures forall o: nat :: o in s.tie.st.poisoned ==> o < s.tie.st.n && !IsReg(s, o)
  {
    CellRange(s.tie);
    hide Distinct, CellsTied, RegsTied, GlobalsTied, Bounded, ListsIn;
  }

  /** In a relation that modules were built into, objects, cells and TOP are on no copy cycle. */
  lemma BuiltOffCycles(s: Snap, b: Bounds)
    requires Solid(s) && Tied(s.tie, b) && Tame(ReadLists(s.tie.desc, s.raw))
    ensures Collapse.ObjectsOffCycles(SystemOf(s))
  {
    forall h: seq<nat>, g: G.Graph | Collapse.MergesExactly(SystemOf(s), h, g)
      ensures Quotient.ObjectsAlone(SystemOf(s), h)
    {
      BuiltAlone(s, b, h, g);
    }
    hide *;
    OffCyclesIntro(SystemOf(s));
  }

  lemma OffCyclesIntro(sys: System)
    requires forall h: seq<nat>, g: G.Graph :: Collapse.MergesExactly(sys, h, g) ==> Quotient.ObjectsAlone(sys, h)
    ensures Collapse.ObjectsOffCycles(sys)
  {
    hide Collapse.MergesExactly, Quotient.ObjectsAlone;
  }

  lemma BuiltAlone(s: Snap, b: Bounds, h: seq<nat>, g: G.Graph)
    requires Solid(s) && Tied(s.tie, b) && Tame(ReadLists(s.tie.desc, s.raw))
    requires Collapse.MergesExactly(SystemOf(s), h, g)
    ensures Quotient.ObjectsAlone(SystemOf(s), h)
  {
    MarksPlain(s, b);
    SolidAddr(s);
    hide Solid, Tied, Tame, ReadLists, IsReg, Quotient.Alone;
    assert |h| == s.tie.st.n;
    forall x: nat | x < |h| && !IsReg(s, x) ensures Quotient.Alone(h, x) {
      PlainAlone(s, h, g, x);
    }
    hide Collapse.MergesExactly;
    forall p: nat, o: nat | (p, o) in s.raw.addr ensures Quotient.Alone(h, o) {
      AddressedPlain(s, p, o);
    }
    forall o: nat, off: nat | (o, off) in s.tie.st.cells
      ensures Quotient.Alone(h, o) && Quotient.Alone(h, s.tie.st.cells[(o, off)])
    {
      CellsPlain(s, b, o, off);
    }
  }

  lemma SolidAddr(s: Snap)
    requires Solid(s)
    ensures forall p: nat, o: nat :: (p, o) in s.raw.addr ==> o < s.tie.st.n
  {
    Building.SolidLists(s);
    hide Solid;
    forall p: nat, o: nat | (p, o) in s.raw.addr ensures o < s.tie.st.n {
      var l := s.raw.addr;
      var i :| 0 <= i < |l| && l[i] == (p, o);
    }
  }

  lemma PlainNoAny(s: Snap)
    requires Offsets(ReadLists(s.tie.desc, s.raw))
    ensures NoAnyOffset(SystemOf(s))
  {
    var l := s.raw.geps;
    forall d: nat, x: nat, off: nat | (d, x, off) in l ensures off != ANY_OFFSET {
      var i :| 0 <= i < |l| && l[i] == (d, x, off);
      assert ReadTriples(s.tie.desc, l)[i].2 == off;
    }
  }

  // ------------------------------------------------------------ build, collapse, solve

  lemma PairsScoped(l: seq<(nat, nat)>, n: nat)
    requires PairsIn(l, n)
    ensures forall a: nat, b: nat :: (a, b) in l ==> a < n && b < n
  {
    forall a: nat, b: nat | (a, b) in l ensures a < n && b < n {
      var i :| 0 <= i < |l| && l[i] == (a, b);
    }
  }

  lemma TriplesScoped(l: seq<(nat, nat, nat)>, n: nat)
    requires TriplesIn(l, n)
    ensures forall a: nat, b: nat, off: nat :: (a, b, off) in l ==> a < n && b < n
  {
    forall a: nat, b: nat, off: nat | (a, b, off) in l ensures a < n && b < n {
      var i :| 0 <= i < |l| && l[i] == (a, b, off);
    }
  }

  lemma SolidScoped(s: Snap)
    requires Solid(s)
    ensures Good(s.tie.st) && Scoped(SystemOf(s), s.tie.st.n) && s.tie.st.saturated == {}
    ensures forall k :: k in s.tie.regs ==> s.tie.regs[k] < s.tie.st.n
    ensures forall k :: k in s.tie.globals ==> s.tie.globals[k] < s.tie.st.n
    ensures forall x: nat :: x in s.tie.names ==> x < s.tie.st.n
  {
    Building.SolidLists(s);
    var n := s.tie.st.n;
    PairsScoped(s.raw.addr, n);
    PairsScoped(s.raw.copies, n);
    TriplesScoped(s.raw.geps, n);
    PairsScoped(s.raw.loads, n);
    PairsScoped(s.raw.stores, n);
    hide PairsIn, TriplesIn, Good, ListsIn;
  }

  lemma BuiltFacts(s: Snap, b: Bounds, ms: seq<Unit>)
    requires Solid(s) && Tied(s.tie, b) && ReadLists(s.tie.desc, s.raw) == PushedAll(EMPTY, ms).lists
    ensures Collapse.ObjectsOffCycles(SystemOf(s)) && (PlainUnits(ms) ==> NoAnyOffset(SystemOf(s)))
  {
    PushedTame(ms);
    hide PushedAll, PlainUnits, Solid, Tied, ReadLists, Tame, Offsets, Collapse.ObjectsOffCycles, NoAnyOffset;
    BuiltOffCycles(s, b);
    if PlainUnits(ms) {
      PlainNoAny(s);
    }
  }

  // ------------------------------------------------------------ answers and runs

  /**
   A register that is asked about, while it holds a pointer that the run knows: its node has a target,
   and if that is the only one and has a name, the pointer is to the global or function of that name.
   */
  ghost predicate RightlyAnswered(st: State, regs: map<(nat, nat), nat>, names: map<nat, string>,
                                  key: (nat, nat), place: Place) {
    key in regs ==>
      && regs[key] < |st.pts| && st.pts[regs[key]] != {}
      && forall o: nat :: st.pts[regs[key]] == {o} && o in names ==> place == Global(names[o])
  }

  ghost predicate AnswersOf(ms: seq<Unit>, st: State, regs: map<(nat, nat), nat>, names: map<nat, string>, s: Machine) {
    forall v: Var :: v in s.regs ==> RightlyAnswered(st, regs, names, (GlobalId(ms, v.u, v.f), v.r), s.regs[v])
  }

  ghost predicate RunsAnswered(ms: seq<Unit>, st: State, regs: map<(nat, nat), nat>, names: map<nat, string>) {
    forall run: seq<Machine>, k: nat :: IsRun(ms, run) && k < |run| ==> AnswersOf(ms, st, regs, names, run[k])
  }

  /** The node of a register after the collapse carries the register's name. */
  lemma RegName(s: Snap, b: Bounds, st': State, h: seq<nat>, key: (nat, nat), y: nat)
    requires Ready(s, b) && Collapse.NamesFollow(SystemOf(s), st', h)
    requires key in s.tie.regs && Collapse.RenamedTo(h, s.tie.regs[key], y)
    ensures y < |st'.names| && st'.names[y] == Quotient.Rho(h, NameOf(s.tie.desc, RegOf(key.0, key.1)))
  {
    ReadyParts(s, b);
    TiedParts(s.tie, b);
    var x := s.tie.regs[key];
    assert Then(s.tie.desc, x) == RegOf(key.0, key.1);
    NameAt(s, b, x);
    hide Ready, NameOf, Distinct, CellsTied, Tied;
  }

  /** The node of a named object is merged with nothing. */
  lemma GlobalAlone(s: Snap, b: Bounds, h: seq<nat>, x: nat)
    requires Ready(s, b) && Tame(ReadLists(s.tie.desc, s.raw)) && x < |h| && x in s.tie.names
    requires exists g: G.Graph :: Collapse.MergesExactly(SystemOf(s), h, g)
    ensures Quotient.Alone(h, x) && x < |s.tie.desc| && s.tie.desc[x] == GlobalOf(s.tie.names[x])
  {
    ReadyParts(s, b);
    TiedParts(s.tie, b);
    SolidScoped(s);
    hide Ready, Distinct, CellsTied, Tame, ReadLists, Tied, Solid;
    assert Then(s.tie.desc, x) == GlobalOf(s.tie.names[x]);
    var g :| Collapse.MergesExactly(SystemOf(s), h, g);
    PlainAlone(s, h, g, x);
  }

  /** If a place's name goes over into that of a named object's node, the place is that object. */
  lemma NamedPlace(s: Snap, b: Bounds, ms: seq<Unit>, st': State, h: seq<nat>, x: nat, place: Place)
    requires Ready(s, b) && Tame(ReadLists(s.tie.desc, s.raw)) && Collapse.NamesFollow(SystemOf(s), st', h)
    requires x in s.tie.names && x < |h| && h[x] < |st'.names|
    requires st'.names[h[x]] == Quotient.Rho(h, NameOf(s.tie.desc, DescOf(ms, place)))
    ensures place == Global(s.tie.names[x])
  {
    ReadyParts(s, b);
    GlobalAlone(s, b, h, x);
    BaseAt(s, b, x);
    hide Ready, Tame, ReadLists, Distinct, CellsTied, Collapse.MergesExactly, IsReg, GlobalId, Serial;
    var d := DescOf(ms, place);
    assert st'.names[h[x]] == Base(h[x]);
    var y := IndexOf(s.tie.desc, d);
    assert y < |h| && h[y] == h[x];
    assert y == x;
  }

  lemma StateSize(st: State)
    requires Good(st)
    ensures InBounds(st) && |st.pts| == |st.names| == st.n
  {
  }

  /** A pair of the solution, carried over to the nodes it was found on. */
  lemma TargetFound(st': State, h: seq<nat>, y: nat, a: Loc, c: Loc) returns (t: nat)
    requires Good(st') && y < |st'.names| && st'.names[y] == Quotient.Rho(h, a)
    requires (a, c) in Quotient.PullBack(h, Meaning(st'))
    ensures y < |st'.pts| && t in st'.pts[y] && t < |st'.names| && st'.names[t] == Quotient.Rho(h, c)
  {
    StateSize(st');
    hide Good, Meaning, Quotient.Rho;
    t := FactOfNode(st', y, Quotient.Rho(h, c));
  }

  lemma AnswerRight(s: Snap, b: Bounds, ms: seq<Unit>, st': State, h: seq<nat>, key: (nat, nat), y: nat,
                    names: map<nat, string>, place: Place)
    requires Ready(s, b) && Tame(ReadLists(s.tie.desc, s.raw)) && Good(st')
    requires Collapse.NamesFollow(SystemOf(s), st', h)
    requires key in s.tie.regs && Collapse.RenamedTo(h, s.tie.regs[key], y)
    requires forall k: nat :: k in names ==> Collapse.OnlyName(h, s.tie.names, k, names[k])
    requires (NameOf(s.tie.desc, RegOf(key.0, key.1)), NameOf(s.tie.desc, DescOf(ms, place))) in
             Quotient.PullBack(h, Meaning(st'))
    ensures y < |st'.pts| && st'.pts[y] != {}
    ensures forall o: nat :: st'.pts[y] == {o} && o in names ==> place == Global(names[o])
  {
    hide *;
    RegName(s, b, st', h, key, y);
    var t := TargetFound(st', h, y, NameOf(s.tie.desc, RegOf(key.0, key.1)), NameOf(s.tie.desc, DescOf(ms, place)));
    forall o: nat | st'.pts[y] == {o} && o in names ensures place == Global(names[o]) {
      assert o == t;
      var x := NamedFrom(h, s.tie.names, o, names[o]);
      NamedPlace(s, b, ms, st', h, x, place);
    }
  }

  lemma NamedFrom(h: seq<nat>, names: map<nat, string>, o: nat, nm: string) returns (x: nat)
    requires Collapse.OnlyName(h, names, o, nm)
    ensures x in names && x < |h| && h[x] == o && names[x] == nm
  {
    x :| x in names && x < |h| && h[x] == o;
  }

  lemma BothParts(sys: System, st': State, h: seq<nat>)
    requires Collapse.SolvesBoth(sys, st', h)
    ensures Scoped(sys, sys.start.n) && Good(sys.start) && Good(st') && Collapse.NamesFollow(sys, st', h)
    ensures InBounds(st') && |st'.pts| == |st'.names| == st'.n
    ensures Closed(sys, Quotient.PullBack(h, Meaning(st')))
  {
    hide Scoped, PointsToRules.Named, Marked, Collapse.NamesFollow, Closed, Quotient.PullBack, Meaning;
  }

  /** What was solved on the collapsed relation answers rightly about every run of the modules. */
  lemma AllAnswered(s: Snap, b: Bounds, ms: seq<Unit>, st': State, h: seq<nat>, regs: map<(nat, nat), nat>,
                    names: map<nat, string>)
    requires Ready(s, b) && ReadLists(s.tie.desc, s.raw) == PushedAll(EMPTY, ms).lists
    requires Collapse.SolvesBoth(SystemOf(s), st', h)
    requires regs.Keys == s.tie.regs.Keys && forall k :: k in regs ==> Collapse.RenamedTo(h, s.tie.regs[k], regs[k])
    requires forall k: nat :: k in names ==> Collapse.OnlyName(h, s.tie.names, k, names[k])
    ensures RunsAnswered(ms, st', regs, names)
  {
    hide Ready, ReadLists, PushedAll, Collapse.SolvesBoth, IsRun, Tame, Good, Scoped, Closed, Meaning, Offsets,
      PlainUnits;
    PushedTame(ms);
    BothParts(SystemOf(s), st', h);
    var p := Quotient.PullBack(h, Meaning(st'));
    hide Quotient.PullBack, NameOf, DescOf, GlobalId;
    forall run: seq<Machine>, k: nat | IsRun(ms, run) && k < |run| ensures AnswersOf(ms, st', regs, names, run[k]) {
      RunHeld(s, b, ms, p, run, k);
      forall v: Var | v in run[k].regs
        ensures RightlyAnswered(st', regs, names, (GlobalId(ms, v.u, v.f), v.r), run[k].regs[v])
      {
        var key := (GlobalId(ms, v.u, v.f), v.r);
        if key in regs {
          assert VarHeld(s.tie.desc, ms, p, run[k], v);
          AnswerRight(s, b, ms, st', h, key, regs[key], names, run[k].regs[v]);
        }
      }
    }
  }

  /**
   Collapse and solve what a builder has collected, which `BuildShards` says is
   the relation of the modules in order. If no module uses an unknown offset and
   no cap was met, every register has the single target it has in the least
   solution of that relation, and in every run of the modules a register whose
   single target is a named object points to it.
   */
  method SolveBuilt(built: Building.Builder, ghost ms: seq<Unit>)
    returns (p: Collapse.ProgramPointsTo, ghost h: seq<nat>)
    requires built.Valid() && built.Exact() && built.Means() == PushedAll(EMPTY, ms)
    modifies built.pt
    ensures p.pt == built.pt && Good(p.pt.View())
    ensures PlainUnits(ms) && Exact(p.pt.View()) ==>
              Collapse.AnswersSurvive(old(SystemOf(built.Now())), p.pt.View(), h, built.regNode, p.regNode)
    ensures PlainUnits(ms) && Exact(p.pt.View()) ==> RunsAnswered(ms, p.pt.View(), p.regNode, p.objGlobal)
  {
    hide Collapse.SolvesBoth, Collapse.RenamedTo, Collapse.OnlyName, RunsAnswered;
    hide Solid, Tied, ReadLists, PoisonNames, PushedAll, PlainUnits, Good, Scoped, Exact, NoAnyOffset,
      Collapse.ObjectsOffCycles, Collapse.AnswersSurvive;
    ghost var s := built.Now();
    SolidScoped(s);
    BuiltFacts(s, Bounds(built.next, built.next, built.units, 0), ms);
    p := new Collapse.ProgramPointsTo.Of(built.pt, built.regNode, built.globalObj, built.objGlobal);
    assert p.System() == SystemOf(s);
    h := p.CollapseAndSolve();
    if PlainUnits(ms) && Exact(p.pt.View()) {
      AllAnswered(s, Bounds(built.next, built.next, built.units, 0), ms, p.pt.View(), h, p.regNode, p.objGlobal);
    }
  }
}
