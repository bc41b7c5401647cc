/**
 From the nodes of a built relation back to what they stand for: a solution of the numbered system, read through
 the descriptions, meets the constraints of the modules (crates/absint/src/pointsto.rs:433-560).
 */
module ModuleFacts {
  import opened PointsToRules
  import opened Shards
  import opened Numbering
  import opened ModuleRuns
  import opened ModuleMeaning
  import Building

  ghost predicate Listed(desc: seq<Desc>, d: Desc) {
    exists x: nat :: x < |desc| && desc[x] == d
  }

  ghost function IndexOf(desc: seq<Desc>, d: Desc): (x: nat)
    ensures Listed(desc, d) ==> x < |desc| && desc[x] == d
    ensures !Listed(desc, d) ==> x == |desc|
  {
    if Listed(desc, d) then
      var x: nat :| x < |desc| && desc[x] == d;
      x
    else |desc|
  }

  /** The name under which a description occurs in the system; a number of its own for those without a node. */
  ghost function NameOf(desc: seq<Desc>, d: Desc): Loc {
    match d
    case CellOf(o, off) => Field(NameOf(desc, o), off)
    case _ => Base(IndexOf(desc, d))
  }

  ghost predicate Ready(s: Snap, b: Bounds) {
    Solid(s) && Tied(s.tie, b)
  }

  lemma ReadyParts(s: Snap, b: Bounds)
    requires Ready(s, b)
    ensures Good(s.tie.st) && |s.tie.desc| == s.tie.st.n == |s.tie.st.names| && 0 < s.tie.st.n
    ensures Distinct(s.tie.desc) && CellsTied(s.tie) && s.tie.desc[TOP] == Top
    ensures s.tie.st.names[TOP] == Base(TOP)
  {
    TiedParts(s.tie, b);
    CellRange(s.tie);
    hide Tied, RegsTied, GlobalsTied, Bounded, PoisonTied, ListsIn, Distinct, CellsTied, Marked, IsCell;
  }

  /** The cell at node `x`: its object and offset. */
  lemma CellAt(s: Snap, b: Bounds, x: nat) returns (o: nat, off: nat)
    requires Ready(s, b) && x < |s.tie.desc| && s.tie.desc[x].CellOf?
    ensures o < |s.tie.desc| && s.tie.desc[x] == CellOf(s.tie.desc[o], off)
    ensures x < |s.tie.st.names| && o < |s.tie.st.names| && s.tie.st.names[x] == Field(s.tie.st.names[o], off)
  {
    ReadyParts(s, b);
    CellRange(s.tie);
    hide Ready, Distinct, Marked;
    assert IsCell(s.tie.st, x);
    o, off :| (o, off) in s.tie.st.cells && s.tie.st.cells[(o, off)] == x;
    assert Then(s.tie.desc, x) == CellOf(Then(s.tie.desc, o), off);
  }

  lemma BaseAt(s: Snap, b: Bounds, x: nat)
    requires Ready(s, b) && x < |s.tie.desc| && !s.tie.desc[x].CellOf?
    ensures x < |s.tie.st.names| && s.tie.st.names[x] == Base(x)
  {
    ReadyParts(s, b);
    CellRange(s.tie);
    hide Ready, Distinct, Marked;
    assert !IsCell(s.tie.st, x);
  }

  lemma IndexAt(desc: seq<Desc>, x: nat)
    requires Distinct(desc) && x < |desc|
    ensures IndexOf(desc, desc[x]) == x
  {
    assert Listed(desc, desc[x]);
  }

  /** A node's name is the name of what it stands for. */
  lemma {:induction false} NameAt(s: Snap, b: Bounds, x: nat)
    requires Ready(s, b) && x < |s.tie.desc|
    ensures x < |s.tie.st.names| && NameOf(s.tie.desc, s.tie.desc[x]) == s.tie.st.names[x]
    decreases s.tie.desc[x]
  {
    if s.tie.desc[x].CellOf? {
      var o, off := CellAt(s, b, x);
      hide Ready, IndexOf;
      assert s.tie.desc[o] < s.tie.desc[x];
      NameAt(s, b, o);
    } else {
      BaseAt(s, b, x);
      ReadyParts(s, b);
      IndexAt(s.tie.desc, x);
      hide Ready, IndexOf;
    }
  }

  /** Only TOP has TOP's name. */
  lemma NameTop(s: Snap, b: Bounds, d: Desc)
    requires Ready(s, b)
    ensures NameOf(s.tie.desc, d) == Base(TOP) <==> d == Top
  {
    ReadyParts(s, b);
    IndexAt(s.tie.desc, TOP);
    hide Ready, Listed;
  }

  lemma NameReach(s: Snap, b: Bounds, d: Desc, off: nat)
    requires Ready(s, b)
    ensures NameOf(s.tie.desc, Reach(d, off)) == Access(NameOf(s.tie.desc, d), off)
  {
    NameTop(s, b, d);
    hide Ready, IndexOf;
  }

  /** A relation over names, read as one over descriptions. */
  ghost function Seen(desc: seq<Desc>, p: Facts): Rel {
    iset q: (Desc, Desc) | (NameOf(desc, q.0), NameOf(desc, q.1)) in p
  }

  ghost function SystemOf(s: Snap): System {
    System(s.raw.addr, s.raw.copies, s.raw.geps, s.raw.loads, s.raw.stores, s.tie.st)
  }

  lemma SeenCarries(s: Snap, b: Bounds, p: Facts, d: nat, x: nat)
    requires Ready(s, b) && d < |s.tie.desc| && x < |s.tie.desc|
    requires d < |s.tie.st.names| && x < |s.tie.st.names| && Includes(p, s.tie.st.names[d], s.tie.st.names[x])
    ensures Carries(Seen(s.tie.desc, p), s.tie.desc[d], s.tie.desc[x])
  {
    NameAt(s, b, d);
    NameAt(s, b, x);
    hide Ready, NameOf;
  }

  lemma SeenReaches(s: Snap, b: Bounds, p: Facts, d: nat, x: nat, off: nat)
    requires Ready(s, b) && d < |s.tie.desc| && x < |s.tie.desc|
    requires d < |s.tie.st.names| && x < |s.tie.st.names| && GepHolds(p, s.tie.st.names[d], s.tie.st.names[x], off)
    ensures Reaches(Seen(s.tie.desc, p), s.tie.desc[d], s.tie.desc[x], off)
  {
    NameAt(s, b, d);
    NameAt(s, b, x);
    hide Ready, NameOf, Reach, Access;
    var rel := Seen(s.tie.desc, p);
    forall l: Desc | (s.tie.desc[x], l) in rel ensures (s.tie.desc[d], Reach(l, off)) in rel {
      NameReach(s, b, l, off);
    }
  }

  lemma SeenLoaded(s: Snap, b: Bounds, p: Facts, d: nat, x: nat)
    requires Ready(s, b) && d < |s.tie.desc| && x < |s.tie.desc|
    requires d < |s.tie.st.names| && x < |s.tie.st.names| && LoadHolds(p, s.tie.st.names[d], s.tie.st.names[x])
    ensures Loaded(Seen(s.tie.desc, p), s.tie.desc[d], s.tie.desc[x])
  {
    NameAt(s, b, d);
    NameAt(s, b, x);
    hide Ready, NameOf;
    var rel := Seen(s.tie.desc, p);
    forall l: Desc, m: Desc | (s.tie.desc[x], l) in rel && (l, m) in rel ensures (s.tie.desc[d], m) in rel {
      assert Includes(p, s.tie.st.names[d], NameOf(s.tie.desc, l));
    }
  }

  lemma SeenStored(s: Snap, b: Bounds, p: Facts, v: nat, x: nat)
    requires Ready(s, b) && v < |s.tie.desc| && x < |s.tie.desc|
    requires v < |s.tie.st.names| && x < |s.tie.st.names| && StoreHolds(p, s.tie.st.names[v], s.tie.st.names[x])
    ensures Stored(Seen(s.tie.desc, p), s.tie.desc[v], s.tie.desc[x])
  {
    NameAt(s, b, v);
    NameAt(s, b, x);
    hide Ready, NameOf;
    var rel := Seen(s.tie.desc, p);
    forall l: Desc, m: Desc | (s.tie.desc[x], l) in rel && (s.tie.desc[v], m) in rel ensures (l, m) in rel {
      assert Includes(p, NameOf(s.tie.desc, l), s.tie.st.names[v]);
    }
  }

  /** Everything a closed relation is asked for, constraint by constraint. */
  lemma ClosedParts(sys: System, p: Facts)
    requires Scoped(sys, sys.start.n) && Good(sys.start) && Closed(sys, p)
    ensures var nm := sys.start.names;
            && (forall i: nat :: i < |sys.addr| ==> (nm[sys.addr[i].0], nm[sys.addr[i].1]) in p)
            && (forall i: nat :: i < |sys.copies| ==> Includes(p, nm[sys.copies[i].0], nm[sys.copies[i].1]))
            && (forall i: nat :: i < |sys.geps| ==>
                  GepHolds(p, nm[sys.geps[i].0], nm[sys.geps[i].1], sys.geps[i].2))
            && (forall i: nat :: i < |sys.loads| ==> LoadHolds(p, nm[sys.loads[i].0], nm[sys.loads[i].1]))
            && (forall i: nat :: i < |sys.stores| ==> StoreHolds(p, nm[sys.stores[i].0], nm[sys.stores[i].1]))
  {
    hide PointsToRules.Named, Marked, Includes, GepHolds, LoadHolds, StoreHolds;
    assert forall i: nat :: i < |sys.addr| ==> (sys.addr[i].0, sys.addr[i].1) in sys.addr;
    assert forall i: nat :: i < |sys.copies| ==> (sys.copies[i].0, sys.copies[i].1) in sys.copies;
    assert forall i: nat :: i < |sys.geps| ==> (sys.geps[i].0, sys.geps[i].1, sys.geps[i].2) in sys.geps;
    assert forall i: nat :: i < |sys.loads| ==> (sys.loads[i].0, sys.loads[i].1) in sys.loads;
    assert forall i: nat :: i < |sys.stores| ==> (sys.stores[i].0, sys.stores[i].1) in sys.stores;
  }

  /** A solution of the numbered system meets the constraints it stands for. */
  lemma SeenMeets(s: Snap, b: Bounds, p: Facts)
    requires Ready(s, b) && Scoped(SystemOf(s), s.tie.st.n) && Good(s.tie.st) && Closed(SystemOf(s), p)
    ensures Meets(Seen(s.tie.desc, p), ReadLists(s.tie.desc, s.raw))
  {
    var sys, desc, rel, ls := SystemOf(s), s.tie.desc, Seen(s.tie.desc, p), ReadLists(s.tie.desc, s.raw);
    ReadyParts(s, b);
    ClosedParts(sys, p);
    Building.SolidLists(s);
    hide Ready, Closed, Scoped, Good, Distinct, CellsTied, Includes, GepHolds, LoadHolds, StoreHolds, Carries, Reaches,
      Loaded, Stored;
    forall i: nat | i < |ls.addr| ensures ls.addr[i] in rel {
      NameAt(s, b, s.raw.addr[i].0);
      NameAt(s, b, s.raw.addr[i].1);
      hide NameOf;
    }
    hide Seen;
    forall i: nat | i < |ls.copies| ensures Carries(rel, ls.copies[i].0, ls.copies[i].1) {
      SeenCarries(s, b, p, s.raw.copies[i].0, s.raw.copies[i].1);
    }
    forall i: nat | i < |ls.geps| ensures Reaches(rel, ls.geps[i].0, ls.geps[i].1, ls.geps[i].2) {
      SeenReaches(s, b, p, s.raw.geps[i].0, s.raw.geps[i].1, s.raw.geps[i].2);
    }
    forall i: nat | i < |ls.loads| ensures Loaded(rel, ls.loads[i].0, ls.loads[i].1) {
      SeenLoaded(s, b, p, s.raw.loads[i].0, s.raw.loads[i].1);
    }
    forall i: nat | i < |ls.stores| ensures Stored(rel, ls.stores[i].0, ls.stores[i].1) {
      SeenStored(s, b, p, s.raw.stores[i].0, s.raw.stores[i].1);
    }
  }

  // ------------------------------------------------------------ runs and solutions

  /** What a run keeps is in the solution, under the names of the nodes. */
  ghost predicate Held(desc: seq<Desc>, ms: seq<Unit>, p: Facts, s: Machine) {
    && (forall v: Var :: v in s.regs ==> VarHeld(desc, ms, p, s, v))
    && (forall l: Place :: l in s.memory ==> PlaceHeld(desc, ms, p, s, l))
  }

  ghost predicate VarHeld(desc: seq<Desc>, ms: seq<Unit>, p: Facts, s: Machine, v: Var)
    requires v in s.regs
  {
    (NameOf(desc, RegOf(GlobalId(ms, v.u, v.f), v.r)), NameOf(desc, DescOf(ms, s.regs[v]))) in p
  }

  ghost predicate PlaceHeld(desc: seq<Desc>, ms: seq<Unit>, p: Facts, s: Machine, l: Place)
    requires l in s.memory
  {
    (NameOf(desc, DescOf(ms, l)), NameOf(desc, DescOf(ms, s.memory[l]))) in p
  }

  /**
   Every pair of a register or memory place and the place it points to, at any
   point of any run of the modules, is in every closed relation of the system
   that was built from them.
   */
  lemma RunHeld(s: Snap, b: Bounds, ms: seq<Unit>, p: Facts, run: seq<Machine>, k: nat)
    requires Ready(s, b) && Scoped(SystemOf(s), s.tie.st.n) && Good(s.tie.st) && Closed(SystemOf(s), p)
    requires ReadLists(s.tie.desc, s.raw) == PushedAll(EMPTY, ms).lists
    requires IsRun(ms, run) && k < |run|
    ensures Held(s.tie.desc, ms, p, run[k])
  {
    var rel := Seen(s.tie.desc, p);
    hide Ready, Scoped, Good, Closed, Meets, PushedAll, CoversAll, IsRun, ReadLists;
    SeenMeets(s, b, p);
    NoLess(rel, ms);
    RunInside(ms, rel, run, k);
    InsideHeld(s.tie.desc, ms, p, run[k]);
  }

  lemma InsideHeld(desc: seq<Desc>, ms: seq<Unit>, p: Facts, s: Machine)
    requires Inside(ms, Seen(desc, p), s)
    ensures Held(desc, ms, p, s)
  {
    hide NameOf, DescOf, GlobalId;
    forall v: Var | v in s.regs ensures VarHeld(desc, ms, p, s, v) {
      assert RegInside(ms, Seen(desc, p), s, v);
    }
    forall l: Place | l in s.memory ensures PlaceHeld(desc, ms, p, s, l) {
      assert CellInside(ms, Seen(desc, p), s, l);
    }
  }
}
