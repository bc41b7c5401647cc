/**
 An offset taken in two steps is another cell than the same offset taken at once
 (crates/absint/src/pointsto.rs:166-195).
 */
module ModuleOffsets {
  import opened Wrappers
  import opened PointsToRules
  import opened Shards
  import opened ModuleRuns
  import opened ModuleMeaning

  /** Two steps lead to where one step leads exactly from TOP, or when one of the two goes nowhere. */
  lemma StepwiseExactly(l: Loc, a: nat, b: nat)
    ensures Access(Access(l, a), b) == Access(l, a + b) <==> l == Base(TOP) || a == 0 || b == 0
  {
    if l != Base(TOP) && a != 0 && b != 0 {
      assert Access(Access(l, a), b) == Field(Field(l, a), b);
      Deeper(l, a, b, a + b);
    }
  }

  lemma Deeper(l: Loc, a: nat, b: nat, c: nat)
    ensures Field(Field(l, a), b) != Field(l, c)
  {
    assert l < Field(l, a);
  }

  /** Two objects; the second is stored 8 bytes into the first, and loaded from 4 bytes behind 4 bytes into it. */
  const STEPWISE: seq<Inst> := [
    Alloc(0), Alloc(1), Offset(2, 0, Some(8)), StorePtr(2, PReg(1)),
    Offset(3, 0, Some(4)), Offset(4, 3, Some(4)), LoadPtr(5, 4)]

  const MODULES: seq<Unit> := [Unit([Fn("f", false, [], STEPWISE)], [])]

  const FIRST: Desc := Local(0, 0)
  const SECOND: Desc := Local(0, 1)

  ghost const FOUND: Rel := iset{
    (RegOf(0, 0), FIRST), (RegOf(0, 1), SECOND), (RegOf(0, 2), CellOf(FIRST, 8)), (CellOf(FIRST, 8), SECOND),
    (RegOf(0, 3), CellOf(FIRST, 4)), (RegOf(0, 4), CellOf(CellOf(FIRST, 4), 4))}

  lemma Allocated(j: nat)
    requires j < 2
    ensures Serial(MODULES, Spot(0, 0, j)) == j
  {
    var insts := MODULES[0].fns[0].insts;
    assert MODULES[0].fns[..0] == [];
    if j == 0 {
      assert insts[..0] == [];
    } else {
      assert insts[..1] == [Alloc(0)] && [Alloc(0)][..0] == [];
    }
  }

  lemma OneFunction(x: Spot)
    requires Stands(MODULES, x)
    ensures x.u == 0 && x.f == 0 && x.j < 7 && InstAt(MODULES, x) == STEPWISE[x.j] && GlobalId(MODULES, 0, 0) == 0
    ensures x == Spot(0, 0, x.j)
  {
  }

  lemma FoundCovers(x: Spot)
    ensures Covers(MODULES, FOUND, x)
  {
    if Stands(MODULES, x) {
      OneFunction(x);
      if x.j < 2 {
        Allocated(x.j);
      }
      hide Serial, GlobalId, Stands;
    }
  }

  lemma AllCovered()
    ensures CoversAll(MODULES, FOUND) && Proper(MODULES, FOUND)
  {
    forall x: Spot ensures Covers(MODULES, FOUND, x) {
      FoundCovers(x);
    }
    Allocated(0);
    Allocated(1);
    NotTemp(MODULES, Spot(0, 0, 0));
    NotTemp(MODULES, Spot(0, 0, 1));
    hide Covers, IsTemp, Serial;
  }

  /** What is loaded is not found: the collected constraints can be met with nothing in the register. */
  lemma StepwiseMisses() returns (rel: Rel)
    ensures Meets(rel, PushedAll(EMPTY, MODULES).lists) && forall l: Desc :: (RegOf(0, 5), l) !in rel
  {
    AllCovered();
    rel := WithTemps(MODULES, FOUND);
    hide Meets, PushedAll, CoversAll, Proper, IsTemp;
    NoMore(MODULES, FOUND);
    forall l: Desc ensures (RegOf(0, 5), l) !in rel {
      RegisterKept(l);
    }
  }

  lemma RegisterKept(l: Desc)
    ensures (RegOf(0, 5), l) !in WithTemps(MODULES, FOUND)
  {
    SameFrom(MODULES, FOUND, RegOf(0, 5));
  }
}
