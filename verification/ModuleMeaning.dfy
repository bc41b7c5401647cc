/**
 The constraints collected from modules say what their instructions can do, no less and no more
 (crates/absint/src/pointsto.rs:530-674).
 */
module ModuleMeaning {
  import opened Wrappers
  import opened PointsToRules
  import opened Shards
  import opened ModuleRuns

  // ------------------------------------------------------------ relations that meet the constraints

  ghost predicate Carries(rel: Rel, d: Desc, s: Desc) {
    forall l: Desc :: (s, l) in rel ==> (d, l) in rel
  }

  ghost predicate Reaches(rel: Rel, d: Desc, s: Desc, off: nat) {
    forall l: Desc :: (s, l) in rel ==> (d, Reach(l, off)) in rel
  }

  ghost predicate Loaded(rel: Rel, d: Desc, s: Desc) {
    forall l: Desc, m: Desc :: (s, l) in rel && (l, m) in rel ==> (d, m) in rel
  }

  ghost predicate Stored(rel: Rel, v: Desc, p: Desc) {
    forall l: Desc, m: Desc :: (p, l) in rel && (v, m) in rel ==> (l, m) in rel
  }

  /** The relation meets every constraint of the lists. */
  ghost predicate Meets(rel: Rel, ls: Lists<Desc>) {
    && (forall i: nat :: i < |ls.addr| ==> ls.addr[i] in rel)
    && (forall i: nat :: i < |ls.copies| ==> Carries(rel, ls.copies[i].0, ls.copies[i].1))
    && (forall i: nat :: i < |ls.geps| ==> Reaches(rel, ls.geps[i].0, ls.geps[i].1, ls.geps[i].2))
    && (forall i: nat :: i < |ls.loads| ==> Loaded(rel, ls.loads[i].0, ls.loads[i].1))
    && (forall i: nat :: i < |ls.stores| ==> Stored(rel, ls.stores[i].0, ls.stores[i].1))
  }

  lemma MeetsPlus(rel: Rel, a: Lists<Desc>, b: Lists<Desc>)
    ensures Meets(rel, Plus(a, b)) <==> Meets(rel, a) && Meets(rel, b)
  {
    hide Carries, Reaches, Loaded, Stored;
    var c := Plus(a, b);
    if Meets(rel, c) {
      assert forall i: nat :: i < |a.addr| ==> c.addr[i] == a.addr[i];
      assert forall i: nat :: i < |b.addr| ==> c.addr[|a.addr| + i] == b.addr[i];
      assert forall i: nat :: i < |a.copies| ==> c.copies[i] == a.copies[i];
      assert forall i: nat :: i < |b.copies| ==> c.copies[|a.copies| + i] == b.copies[i];
      assert forall i: nat :: i < |a.geps| ==> c.geps[i] == a.geps[i];
      assert forall i: nat :: i < |b.geps| ==> c.geps[|a.geps| + i] == b.geps[i];
      assert forall i: nat :: i < |a.loads| ==> c.loads[i] == a.loads[i];
      assert forall i: nat :: i < |b.loads| ==> c.loads[|a.loads| + i] == b.loads[i];
      assert forall i: nat :: i < |a.stores| ==> c.stores[i] == a.stores[i];
      assert forall i: nat :: i < |b.stores| ==> c.stores[|a.stores| + i] == b.stores[i];
    }
  }

  lemma MeetsNothing(rel: Rel)
    ensures Meets(rel, Nothing())
  {
  }

  // ------------------------------------------------------------ instruction by instruction

  lemma OfInstTemps(i: Inst, g: nat, unit: nat, k: nat)
    ensures OfInst(i, g, unit, k).1 == k + Temps(i)
  {
  }

  ghost predicate InstMeets(rel: Rel, insts: seq<Inst>, g: nat, unit: nat, k: nat, j: nat) {
    j < |insts| ==> Meets(rel, OfInst(insts[j], g, unit, k + TempsIn(insts[..j])).0)
  }

  ghost predicate InstsMeet(rel: Rel, insts: seq<Inst>, g: nat, unit: nat, k: nat, n: nat) {
    forall j: nat :: j < n ==> InstMeets(rel, insts, g, unit, k, j)
  }

  lemma InstsNext(rel: Rel, insts: seq<Inst>, g: nat, unit: nat, k: nat, n: nat)
    requires n > 0
    ensures InstsMeet(rel, insts, g, unit, k, n) <==>
            InstsMeet(rel, insts, g, unit, k, n - 1) && InstMeets(rel, insts, g, unit, k, n - 1)
  {
    hide InstMeets;
  }

  lemma {:induction false} OfInstsSnoc(insts: seq<Inst>, g: nat, unit: nat, k: nat, n: nat)
    requires 0 < n <= |insts|
    ensures var (ls, k') := OfInsts(insts[..n - 1], g, unit, k); var (one, k'') := OfInst(insts[n - 1], g, unit, k');
            OfInsts(insts[..n], g, unit, k) == (Plus(ls, one), k'')
    ensures TempsIn(insts[..n]) == TempsIn(insts[..n - 1]) + Temps(insts[n - 1])
  {
    hide OfInst, Plus, Temps;
    var s := insts[..n];
    assert s[..|s| - 1] == insts[..n - 1] && s[|s| - 1] == insts[n - 1];
  }

  lemma OfInstsNext(rel: Rel, insts: seq<Inst>, g: nat, unit: nat, k: nat, n: nat)
    requires 0 < n <= |insts| && OfInsts(insts[..n - 1], g, unit, k).1 == k + TempsIn(insts[..n - 1])
    ensures OfInsts(insts[..n], g, unit, k).1 == k + TempsIn(insts[..n])
    ensures Meets(rel, OfInsts(insts[..n], g, unit, k).0) <==>
            Meets(rel, OfInsts(insts[..n - 1], g, unit, k).0) && InstMeets(rel, insts, g, unit, k, n - 1)
  {
    hide Meets, OfInst, OfInsts, Plus, Temps, TempsIn;
    OfInstsSnoc(insts, g, unit, k, n);
    var (ls, k') := OfInsts(insts[..n - 1], g, unit, k);
    OfInstTemps(insts[n - 1], g, unit, k');
    MeetsPlus(rel, ls, OfInst(insts[n - 1], g, unit, k').0);
  }

  lemma {:induction false} InstsMeaning(rel: Rel, insts: seq<Inst>, g: nat, unit: nat, k: nat, n: nat)
    requires n <= |insts|
    ensures OfInsts(insts[..n], g, unit, k).1 == k + TempsIn(insts[..n])
    ensures Meets(rel, OfInsts(insts[..n], g, unit, k).0) <==> InstsMeet(rel, insts, g, unit, k, n)
  {
    if n == 0 {
      hide Meets;
      MeetsNothing(rel);
    } else {
      hide *;
      InstsMeaning(rel, insts, g, unit, k, n - 1);
      OfInstsNext(rel, insts, g, unit, k, n);
      InstsNext(rel, insts, g, unit, k, n);
    }
  }

  ghost predicate FnMeets(rel: Rel, fns: seq<Fn>, base: nat, unit: nat, f: nat) {
    f < |fns| ==> InstsMeet(rel, fns[f].insts, base + f, unit, TempsOf(fns[..f]), |fns[f].insts|)
  }

  ghost predicate FnsMeet(rel: Rel, fns: seq<Fn>, base: nat, unit: nat, n: nat) {
    forall f: nat :: f < n ==> FnMeets(rel, fns, base, unit, f)
  }

  lemma FnsNext(rel: Rel, fns: seq<Fn>, base: nat, unit: nat, n: nat)
    requires n > 0
    ensures FnsMeet(rel, fns, base, unit, n) <==>
            FnsMeet(rel, fns, base, unit, n - 1) && FnMeets(rel, fns, base, unit, n - 1)
  {
    hide FnMeets;
  }

  lemma OfFnsLast(fns: seq<Fn>, base: nat, unit: nat)
    requires fns != []
    ensures var n := |fns| - 1; var (ls, k) := OfFns(fns[..n], base, unit);
            var (one, k') := OfInsts(fns[n].insts, base + n, unit, k);
            OfFns(fns, base, unit) == (Plus(ls, one), k')
    ensures TempsOf(fns) == TempsOf(fns[..|fns| - 1]) + TempsIn(fns[|fns| - 1].insts)
  {
    hide OfInsts, Plus, TempsIn;
  }

  lemma {:induction false} OfFnsSnoc(fns: seq<Fn>, base: nat, unit: nat, n: nat)
    requires 0 < n <= |fns|
    ensures var (ls, k) := OfFns(fns[..n - 1], base, unit);
            var (one, k') := OfInsts(fns[n - 1].insts, base + (n - 1), unit, k);
            OfFns(fns[..n], base, unit) == (Plus(ls, one), k')
    ensures TempsOf(fns[..n]) == TempsOf(fns[..n - 1]) + TempsIn(fns[n - 1].insts)
  {
    hide *;
    var s, r, last := fns[..n], fns[..n - 1], fns[n - 1];
    assert |s| - 1 == n - 1 && s[..n - 1] == r && s[n - 1] == last;
    OfFnsLast(s, base, unit);
    assert s[..|s| - 1] == r && s[|s| - 1] == last;
  }

  lemma OfFnsNext(rel: Rel, fns: seq<Fn>, base: nat, unit: nat, n: nat)
    requires 0 < n <= |fns| && OfFns(fns[..n - 1], base, unit).1 == TempsOf(fns[..n - 1])
    ensures OfFns(fns[..n], base, unit).1 == TempsOf(fns[..n])
    ensures Meets(rel, OfFns(fns[..n], base, unit).0) <==>
            Meets(rel, OfFns(fns[..n - 1], base, unit).0) && FnMeets(rel, fns, base, unit, n - 1)
  {
    hide Meets, OfInsts, OfFns, Plus, TempsIn, TempsOf, InstsMeet;
    OfFnsSnoc(fns, base, unit, n);
    var (ls, k) := OfFns(fns[..n - 1], base, unit);
    var insts := fns[n - 1].insts;
    assert insts[..|insts|] == insts;
    InstsMeaning(rel, insts, base + (n - 1), unit, k, |insts|);
    MeetsPlus(rel, ls, OfInsts(insts, base + (n - 1), unit, k).0);
  }

  lemma {:induction false} FnsMeaning(rel: Rel, fns: seq<Fn>, base: nat, unit: nat, n: nat)
    requires n <= |fns|
    ensures OfFns(fns[..n], base, unit).1 == TempsOf(fns[..n])
    ensures Meets(rel, OfFns(fns[..n], base, unit).0) <==> FnsMeet(rel, fns, base, unit, n)
  {
    if n == 0 {
      MeetsNothing(rel);
    } else {
      FnsMeaning(rel, fns, base, unit, n - 1);
      OfFnsNext(rel, fns, base, unit, n);
      FnsNext(rel, fns, base, unit, n);
      hide *;
    }
  }

  ghost predicate InitMeets(rel: Rel, inits: seq<Init>, fns: seq<Fn>, i: nat) {
    i < |inits| ==> Meets(rel, OfInit(inits[i], fns))
  }

  ghost predicate InitsMeet(rel: Rel, inits: seq<Init>, fns: seq<Fn>, n: nat) {
    forall i: nat :: i < n ==> InitMeets(rel, inits, fns, i)
  }

  lemma InitsNext(rel: Rel, inits: seq<Init>, fns: seq<Fn>, n: nat)
    requires n > 0
    ensures InitsMeet(rel, inits, fns, n) <==> InitsMeet(rel, inits, fns, n - 1) && InitMeets(rel, inits, fns, n - 1)
  {
    hide InitMeets;
  }

  lemma OfInitsNext(rel: Rel, inits: seq<Init>, fns: seq<Fn>, n: nat)
    requires 0 < n <= |inits|
    ensures Meets(rel, OfInits(inits[..n], fns)) <==>
            Meets(rel, OfInits(inits[..n - 1], fns)) && InitMeets(rel, inits, fns, n - 1)
  {
    var s := inits[..n];
    assert s[..|s| - 1] == inits[..n - 1] && s[|s| - 1] == inits[n - 1];
    MeetsPlus(rel, OfInits(inits[..n - 1], fns), OfInit(inits[n - 1], fns));
    hide Meets, OfInit, Plus;
  }

  lemma {:induction false} InitsMeaning(rel: Rel, inits: seq<Init>, fns: seq<Fn>, n: nat)
    requires n <= |inits|
    ensures Meets(rel, OfInits(inits[..n], fns)) <==> InitsMeet(rel, inits, fns, n)
  {
    if n == 0 {
      MeetsNothing(rel);
    } else {
      InitsMeaning(rel, inits, fns, n - 1);
      OfInitsNext(rel, inits, fns, n);
      InitsNext(rel, inits, fns, n);
      hide *;
    }
  }

  ghost predicate UnitMeets(rel: Rel, ms: seq<Unit>, u: nat) {
    u < |ms| ==>
      && InitsMeet(rel, ms[u].inits, ms[u].fns, |ms[u].inits|)
      && FnsMeet(rel, ms[u].fns, FnsBefore(ms, u), u, |ms[u].fns|)
  }

  ghost predicate UnitsMeet(rel: Rel, ms: seq<Unit>, n: nat) {
    forall u: nat :: u < n ==> UnitMeets(rel, ms, u)
  }

  lemma UnitsNext(rel: Rel, ms: seq<Unit>, n: nat)
    requires n > 0
    ensures UnitsMeet(rel, ms, n) <==> UnitsMeet(rel, ms, n - 1) && UnitMeets(rel, ms, n - 1)
  {
    hide UnitMeets;
  }

  lemma EntersNext(t: Tables, m: Unit)
    ensures PushTables(t, m).next == t.next + |m.fns|
  {
  }

  lemma UnitMeaning(rel: Rel, ms: seq<Unit>, u: nat)
    requires u < |ms|
    ensures Meets(rel, OfUnit(ms[u], FnsBefore(ms, u), u)) <==> UnitMeets(rel, ms, u)
  {
    var m, base := ms[u], FnsBefore(ms, u);
    assert m.inits[..|m.inits|] == m.inits && m.fns[..|m.fns|] == m.fns;
    InitsMeaning(rel, m.inits, m.fns, |m.inits|);
    FnsMeaning(rel, m.fns, base, u, |m.fns|);
    MeetsPlus(rel, OfInits(m.inits, m.fns), OfFns(m.fns, base, u).0);
    hide Meets, OfInits, OfFns, Plus, InitsMeet, FnsMeet, FnsBefore;
  }

  lemma PushedNext(rel: Rel, ms: seq<Unit>, n: nat)
    requires 0 < n <= |ms|
    requires var r := PushedAll(EMPTY, ms[..n - 1]); r.tables.next == FnsBefore(ms, n - 1) && r.units == n - 1
    ensures var r := PushedAll(EMPTY, ms[..n]); r.tables.next == FnsBefore(ms, n) && r.units == n
    ensures Meets(rel, PushedAll(EMPTY, ms[..n]).lists) <==>
            Meets(rel, PushedAll(EMPTY, ms[..n - 1]).lists) && UnitMeets(rel, ms, n - 1)
  {
    var s := ms[..n];
    assert s[..|s| - 1] == ms[..n - 1] && s[|s| - 1] == ms[n - 1];
    var r := PushedAll(EMPTY, ms[..n - 1]);
    EntersNext(r.tables, ms[n - 1]);
    UnitMeaning(rel, ms, n - 1);
    MeetsPlus(rel, r.lists, OfUnit(ms[n - 1], r.tables.next, r.units));
    hide Meets, OfUnit, Plus, PushTables, PoisonedBy, UnitMeets;
  }

  /** Meeting everything collected is meeting what each module contributes. */
  lemma {:induction false} UnitsMeaning(rel: Rel, ms: seq<Unit>, n: nat)
    requires n <= |ms|
    ensures var r := PushedAll(EMPTY, ms[..n]); r.tables.next == FnsBefore(ms, n) && r.units == n
    ensures Meets(rel, PushedAll(EMPTY, ms[..n]).lists) <==> UnitsMeet(rel, ms, n)
  {
    if n == 0 {
      hide Meets;
      MeetsNothing(rel);
    } else {
      hide *;
      UnitsMeaning(rel, ms, n - 1);
      PushedNext(rel, ms, n);
      UnitsNext(rel, ms, n);
    }
  }

  /** What the builder pushes for the instruction at a spot. */
  function Contribution(ms: seq<Unit>, x: Spot): Lists<Desc>
    requires Stands(ms, x)
  {
    OfInst(InstAt(ms, x), GlobalId(ms, x.u, x.f), x.u, Serial(ms, x)).0
  }

  ghost predicate SpotMeets(rel: Rel, ms: seq<Unit>, x: Spot) {
    Stands(ms, x) ==> Meets(rel, Contribution(ms, x))
  }

  ghost predicate EntryMeets(rel: Rel, ms: seq<Unit>, u: nat, i: nat) {
    u < |ms| && i < |ms[u].inits| ==> Meets(rel, OfInit(ms[u].inits[i], ms[u].fns))
  }

  ghost predicate EachMeets(rel: Rel, ms: seq<Unit>) {
    (forall x: Spot :: SpotMeets(rel, ms, x)) && (forall u: nat, i: nat :: EntryMeets(rel, ms, u, i))
  }

  lemma SpotOf(rel: Rel, ms: seq<Unit>, x: Spot)
    requires UnitMeets(rel, ms, x.u)
    ensures SpotMeets(rel, ms, x)
  {
    hide InstMeets, InitsMeet, SpotMeets;
    if Stands(ms, x) {
      FnMet(rel, ms[x.u].fns, FnsBefore(ms, x.u), x.u, x.f, x.j);
      InstMet(rel, ms, x);
    } else {
      NoSpot(rel, ms, x);
    }
  }

  lemma NoSpot(rel: Rel, ms: seq<Unit>, x: Spot)
    requires !Stands(ms, x)
    ensures SpotMeets(rel, ms, x)
  {
  }

  lemma FnMet(rel: Rel, fns: seq<Fn>, base: nat, unit: nat, f: nat, j: nat)
    requires FnsMeet(rel, fns, base, unit, |fns|) && f < |fns| && j < |fns[f].insts|
    ensures InstMeets(rel, fns[f].insts, base + f, unit, TempsOf(fns[..f]), j)
  {
    hide InstMeets, TempsOf;
    assert FnMeets(rel, fns, base, unit, f);
  }

  lemma InstMet(rel: Rel, ms: seq<Unit>, x: Spot)
    requires Stands(ms, x)
    requires InstMeets(rel, ms[x.u].fns[x.f].insts, FnsBefore(ms, x.u) + x.f, x.u, TempsOf(ms[x.u].fns[..x.f]), x.j)
    ensures SpotMeets(rel, ms, x)
  {
    hide Meets, OfInst, TempsOf, TempsIn;
  }

  lemma EntryOf(rel: Rel, ms: seq<Unit>, u: nat, i: nat)
    requires UnitMeets(rel, ms, u)
    ensures EntryMeets(rel, ms, u, i)
  {
    if u < |ms| && i < |ms[u].inits| {
      hide Meets, OfInit, FnsMeet;
      assert InitMeets(rel, ms[u].inits, ms[u].fns, i);
    }
  }

  lemma UnitOf(rel: Rel, ms: seq<Unit>, u: nat)
    requires EachMeets(rel, ms) && u < |ms|
    ensures UnitMeets(rel, ms, u)
  {
    hide Meets, OfInst, OfInit, TempsOf, TempsIn, FnMeets;
    var fns, base := ms[u].fns, FnsBefore(ms, u);
    forall i: nat | i < |ms[u].inits| ensures InitMeets(rel, ms[u].inits, fns, i) {
      assert EntryMeets(rel, ms, u, i);
    }
    forall f: nat | f < |fns| ensures FnMeets(rel, fns, base, u, f) {
      FnOf(rel, ms, u, f);
    }
  }

  lemma FnOf(rel: Rel, ms: seq<Unit>, u: nat, f: nat)
    requires EachMeets(rel, ms) && u < |ms| && f < |ms[u].fns|
    ensures FnMeets(rel, ms[u].fns, FnsBefore(ms, u), u, f)
  {
    hide SpotMeets, EntryMeets, InstMeets, TempsOf, TempsIn;
    var insts, g, k := ms[u].fns[f].insts, FnsBefore(ms, u) + f, TempsOf(ms[u].fns[..f]);
    forall j: nat | j < |insts| ensures InstMeets(rel, insts, g, u, k, j) {
      InstOf(rel, ms, Spot(u, f, j));
    }
  }

  lemma InstOf(rel: Rel, ms: seq<Unit>, x: Spot)
    requires SpotMeets(rel, ms, x) && Stands(ms, x)
    ensures InstMeets(rel, ms[x.u].fns[x.f].insts, FnsBefore(ms, x.u) + x.f, x.u, TempsOf(ms[x.u].fns[..x.f]), x.j)
  {
    hide Meets, OfInst, TempsOf, TempsIn;
  }

  /** Meeting everything collected is meeting what each instruction and each initialiser contributes. */
  lemma EachMeaning(rel: Rel, ms: seq<Unit>)
    ensures Meets(rel, PushedAll(EMPTY, ms).lists) <==> EachMeets(rel, ms)
  {
    UnitsMeaning(rel, ms, |ms|);
    assert ms[..|ms|] == ms;
    hide Meets, PushedAll, UnitMeets, EachMeets, SpotMeets, EntryMeets;
    if UnitsMeet(rel, ms, |ms|) {
      forall x: Spot ensures SpotMeets(rel, ms, x) {
        BeyondMeets(rel, ms, x.u);
        SpotOf(rel, ms, x);
      }
      forall u: nat, i: nat ensures EntryMeets(rel, ms, u, i) {
        BeyondMeets(rel, ms, u);
        EntryOf(rel, ms, u, i);
      }
      EachIntro(rel, ms);
    }
    if EachMeets(rel, ms) {
      forall u: nat | u < |ms| ensures UnitMeets(rel, ms, u) {
        UnitOf(rel, ms, u);
      }
    }
  }

  lemma BeyondMeets(rel: Rel, ms: seq<Unit>, u: nat)
    ensures u < |ms| || UnitMeets(rel, ms, u)
  {
  }

  lemma EachIntro(rel: Rel, ms: seq<Unit>)
    requires (forall x: Spot :: SpotMeets(rel, ms, x)) && (forall u: nat, i: nat :: EntryMeets(rel, ms, u, i))
    ensures EachMeets(rel, ms)
  {
    hide SpotMeets, EntryMeets;
  }

  // ------------------------------------------------------------ what one contribution asks for

  lemma MeetsOne(rel: Rel, p: Desc, o: Desc, off: nat)
    ensures Meets(rel, AddrOf(p, o)) <==> (p, o) in rel
    ensures Meets(rel, CopyOf(p, o)) <==> Carries(rel, p, o)
    ensures Meets(rel, GepOf(p, o, off)) <==> Reaches(rel, p, o, off)
    ensures Meets(rel, LoadOf(p, o)) <==> Loaded(rel, p, o)
    ensures Meets(rel, StoreOf(p, o)) <==> Stored(rel, p, o)
  {
    hide Carries, Reaches, Loaded, Stored;
    assert AddrOf(p, o).addr[0] == (p, o);
    assert CopyOf(p, o).copies[0] == (p, o);
    assert GepOf(p, o, off).geps[0] == (p, o, off);
    assert LoadOf(p, o).loads[0] == (p, o);
    assert StoreOf(p, o).stores[0] == (p, o);
  }

  /** A symbol is in its temporary. */
  ghost predicate Names(rel: Rel, v: Value, u: nat, k: nat) {
    v.Symbol? ==> (Local(u, k), GlobalOf(v.name)) in rel
  }

  /** The node an operand is read from. */
  function Source(v: Value, g: nat, u: nat, k: nat): Desc {
    if v.PReg? then RegOf(g, v.r) else Local(u, k)
  }

  lemma OperandMeets(rel: Rel, v: Value, g: nat, u: nat, k: nat)
    requires !v.Unknown?
    ensures var (d, ls, k') := Operand(v, g, u, k);
            d == Some(Source(v, g, u, k)) && k' == k + (if v.Symbol? then 1 else 0) &&
            (Meets(rel, ls) <==> Names(rel, v, u, k))
  {
    MeetsNothing(rel);
    if v.Symbol? {
      MeetsOne(rel, Local(u, k), GlobalOf(v.name), 0);
    }
    hide Meets;
  }

  lemma MoveMeets(rel: Rel, i: Inst, g: nat, u: nat, k: nat)
    requires i.Move? && !i.src.Unknown?
    ensures Meets(rel, OfInst(i, g, u, k).0) <==>
            Names(rel, i.src, u, k) && Carries(rel, RegOf(g, i.dst), Source(i.src, g, u, k))
  {
    var (d, ls, k') := Operand(i.src, g, u, k);
    OperandMeets(rel, i.src, g, u, k);
    MeetsOne(rel, RegOf(g, i.dst), Source(i.src, g, u, k), 0);
    MeetsPlus(rel, ls, CopyOf(RegOf(g, i.dst), Source(i.src, g, u, k)));
    hide Meets, Operand, Plus, Names, Carries, CopyOf, StoreOf, GepOf;
  }

  lemma StoreMeets(rel: Rel, i: Inst, g: nat, u: nat, k: nat)
    requires i.StorePtr? && !i.value.Unknown?
    ensures Meets(rel, OfInst(i, g, u, k).0) <==>
            Names(rel, i.value, u, k) && Stored(rel, Source(i.value, g, u, k), RegOf(g, i.ptr))
  {
    var (d, ls, k') := Operand(i.value, g, u, k);
    OperandMeets(rel, i.value, g, u, k);
    MeetsOne(rel, Source(i.value, g, u, k), RegOf(g, i.ptr), 0);
    MeetsPlus(rel, ls, StoreOf(Source(i.value, g, u, k), RegOf(g, i.ptr)));
    hide Meets, Operand, Plus, Names, Stored, CopyOf, StoreOf, GepOf;
  }

  lemma BulkMeets(rel: Rel, i: Inst, g: nat, u: nat, k: nat)
    requires i.Bulk? && !i.target.Unknown?
    ensures Meets(rel, OfInst(i, g, u, k).0) <==>
            && Names(rel, i.target, u, k)
            && Reaches(rel, Local(u, k + if i.target.Symbol? then 1 else 0), Source(i.target, g, u, k), ANY_OFFSET)
  {
    var (d, ls, k') := Operand(i.target, g, u, k);
    OperandMeets(rel, i.target, g, u, k);
    MeetsOne(rel, Local(u, k'), Source(i.target, g, u, k), ANY_OFFSET);
    MeetsPlus(rel, ls, GepOf(Local(u, k'), Source(i.target, g, u, k), ANY_OFFSET));
    hide Meets, Operand, Plus, Names, Reaches, CopyOf, StoreOf, GepOf;
  }

  /** The other instructions contribute one constraint or none. */
  lemma PlainMeets(rel: Rel, i: Inst, g: nat, u: nat, k: nat)
    ensures i.Alloc? ==> (Meets(rel, OfInst(i, g, u, k).0) <==> (RegOf(g, i.dst), Local(u, k)) in rel)
    ensures i.Offset? ==>
              (Meets(rel, OfInst(i, g, u, k).0) <==>
               Reaches(rel, RegOf(g, i.dst), RegOf(g, i.base), if i.bytes.Some? then i.bytes.value else ANY_OFFSET))
    ensures i.FieldPtr? ==>
              (Meets(rel, OfInst(i, g, u, k).0) <==> Reaches(rel, RegOf(g, i.dst), RegOf(g, i.base), ANY_OFFSET))
    ensures i.LoadPtr? ==> (Meets(rel, OfInst(i, g, u, k).0) <==> Loaded(rel, RegOf(g, i.dst), RegOf(g, i.ptr)))
    ensures i.Call? ==>
              (Meets(rel, OfInst(i, g, u, k).0) <==> (i.result.Some? ==> (RegOf(g, i.result.value), Top) in rel))
    ensures i.Other? ==> Meets(rel, OfInst(i, g, u, k).0)
    ensures i.Move? && i.src.Unknown? ==> Meets(rel, OfInst(i, g, u, k).0)
    ensures i.StorePtr? && i.value.Unknown? ==> Meets(rel, OfInst(i, g, u, k).0)
    ensures i.Bulk? && i.target.Unknown? ==> Meets(rel, OfInst(i, g, u, k).0)
  {
    MeetsNothing(rel);
    match i
    case Alloc(dst) => MeetsOne(rel, RegOf(g, dst), Local(u, k), 0);
    case Offset(dst, base, bytes) =>
      MeetsOne(rel, RegOf(g, dst), RegOf(g, base), if bytes.Some? then bytes.value else ANY_OFFSET);
    case FieldPtr(dst, base) => MeetsOne(rel, RegOf(g, dst), RegOf(g, base), ANY_OFFSET);
    case LoadPtr(dst, ptr) => MeetsOne(rel, RegOf(g, dst), RegOf(g, ptr), 0);
    case Call(result, _, _) =>
      if result.Some? {
        MeetsOne(rel, RegOf(g, result.value), Top, 0);
      }
    case _ =>
    hide Meets, Nothing, AddrOf, GepOf, LoadOf, Reaches, Loaded;
  }

  // ------------------------------------------------------------ no less

  /** A relation that meets an instruction's constraints has what the instruction can add. */
  lemma SpotCovers(rel: Rel, ms: seq<Unit>, x: Spot)
    requires SpotMeets(rel, ms, x)
    ensures Covers(ms, rel, x)
  {
    if Stands(ms, x) {
      var i, g, k := InstAt(ms, x), GlobalId(ms, x.u, x.f), Serial(ms, x);
      PlainMeets(rel, i, g, x.u, k);
      if i.Move? && !i.src.Unknown? {
        MoveMeets(rel, i, g, x.u, k);
      } else if i.StorePtr? && !i.value.Unknown? {
        StoreMeets(rel, i, g, x.u, k);
      }
      hide Meets, OfInst, Serial, GlobalId, Reach;
    }
  }

  lemma EntryCovers(rel: Rel, ms: seq<Unit>, u: nat, i: nat)
    requires u < |ms| && i < |ms[u].inits|
    ensures EntryMeets(rel, ms, u, i) <==> CoversInit(ms[u], rel, ms[u].inits[i])
  {
    var init := ms[u].inits[i];
    var l := FieldOf(GlobalOf(init.global), init.off);
    var t := TargetName(init, ms[u].fns);
    if t.Some? {
      MeetsOne(rel, l, GlobalOf(t.value), 0);
    } else {
      MeetsNothing(rel);
    }
    hide Meets;
  }

  /**
   Every relation that meets the collected constraints covers all instructions
   and initialisers of the modules.
   */
  lemma NoLess(rel: Rel, ms: seq<Unit>)
    requires Meets(rel, PushedAll(EMPTY, ms).lists)
    ensures CoversAll(ms, rel)
  {
    EachMeaning(rel, ms);
    hide Meets, PushedAll, SpotMeets, EntryMeets, Covers, CoversInit;
    forall x: Spot ensures Covers(ms, rel, x) {
      assert SpotMeets(rel, ms, x);
      SpotCovers(rel, ms, x);
    }
    forall u: nat, i: nat | u < |ms| && i < |ms[u].inits| ensures CoversInit(ms[u], rel, ms[u].inits[i]) {
      assert EntryMeets(rel, ms, u, i);
      EntryCovers(rel, ms, u, i);
    }
  }

  // ------------------------------------------------------------ temporaries are apart

  lemma {:induction false} TempsGrow(insts: seq<Inst>, a: nat, b: nat)
    requires a < b <= |insts|
    ensures TempsIn(insts[..a]) + Temps(insts[a]) <= TempsIn(insts[..b])
  {
    hide Temps;
    assert insts[..b][..b - 1] == insts[..b - 1];
    if a < b - 1 {
      TempsGrow(insts, a, b - 1);
    }
  }

  lemma {:induction false} FnTempsGrow(fns: seq<Fn>, a: nat, b: nat)
    requires a < b <= |fns|
    ensures TempsOf(fns[..a]) + TempsIn(fns[a].insts) <= TempsOf(fns[..b])
  {
    hide TempsIn;
    assert fns[..b][..b - 1] == fns[..b - 1];
    if a < b - 1 {
      FnTempsGrow(fns, a, b - 1);
    }
  }

  predicate Earlier(x: Spot, y: Spot) {
    x.f < y.f || (x.f == y.f && x.j < y.j)
  }

  lemma SerialGrows(ms: seq<Unit>, x: Spot, y: Spot)
    requires Stands(ms, x) && Stands(ms, y) && x.u == y.u && Earlier(x, y)
    ensures Serial(ms, x) + Temps(InstAt(ms, x)) <= Serial(ms, y)
  {
    var fns := ms[x.u].fns;
    var insts := fns[x.f].insts;
    hide TempsIn, TempsOf, Temps;
    if x.f == y.f {
      TempsGrow(insts, x.j, y.j);
    } else {
      TempsGrow(insts, x.j, |insts|);
      assert insts[..|insts|] == insts;
      FnTempsGrow(fns, x.f, y.f);
    }
  }

  /** Two instructions of a module never share a temporary. */
  lemma SerialApart(ms: seq<Unit>, x: Spot, y: Spot)
    requires Stands(ms, x) && Stands(ms, y) && x.u == y.u && x != y
    ensures Serial(ms, x) + Temps(InstAt(ms, x)) <= Serial(ms, y) ||
            Serial(ms, y) + Temps(InstAt(ms, y)) <= Serial(ms, x)
  {
    hide Serial, Temps, InstAt;
    if Earlier(x, y) {
      SerialGrows(ms, x, y);
    } else {
      SerialGrows(ms, y, x);
    }
  }

  // ------------------------------------------------------------ no more

  ghost predicate MadeAt(ms: seq<Unit>, x: Spot, d: Desc) {
    Stands(ms, x) && InstAt(ms, x).Alloc? && d == Local(x.u, Serial(ms, x))
  }

  /** The temporary is no object that is allocated somewhere. */
  ghost predicate IsTemp(ms: seq<Unit>, d: Desc) {
    d.Local? && forall x: Spot :: !MadeAt(ms, x, d)
  }

  function SymbolOf(i: Inst): Option<string> {
    match i
    case Move(_, src) => if src.Symbol? then Some(src.name) else None
    case StorePtr(_, value) => if value.Symbol? then Some(value.name) else None
    case Bulk(target) => if target.Symbol? then Some(target.name) else None
    case _ => None
  }

  ghost predicate NamedAt(ms: seq<Unit>, x: Spot, d: Desc) {
    Stands(ms, x) && SymbolOf(InstAt(ms, x)).Some? && d == Local(x.u, Serial(ms, x))
  }

  /** A temporary for a symbol points to it alone; the others may point anywhere. */
  ghost predicate TempPoints(ms: seq<Unit>, d: Desc, l: Desc) {
    (exists x: Spot :: NamedAt(ms, x, d)) ==>
      exists x: Spot :: NamedAt(ms, x, d) && l == GlobalOf(SymbolOf(InstAt(ms, x)).value)
  }

  /** The relation with the temporaries added. */
  ghost function WithTemps(ms: seq<Unit>, rel: Rel): Rel {
    iset p: (Desc, Desc) | if IsTemp(ms, p.0) then TempPoints(ms, p.0, p.1) else p in rel
  }

  /** Nothing points to a temporary. */
  ghost predicate Proper(ms: seq<Unit>, rel: Rel) {
    forall a: Desc, b: Desc :: (a, b) in rel ==> !IsTemp(ms, b)
  }

  /** A temporary at `k` belongs to the one instruction whose stretch holds `k`. */
  lemma OwnTemp(ms: seq<Unit>, x: Spot, y: Spot, k: nat)
    requires Stands(ms, x) && Stands(ms, y) && x.u == y.u && Temps(InstAt(ms, y)) > 0
    requires Serial(ms, x) <= k < Serial(ms, x) + Temps(InstAt(ms, x)) && Serial(ms, y) == k
    ensures x == y
  {
    hide Serial, Temps, InstAt;
    if x != y {
      SerialApart(ms, x, y);
    }
  }

  lemma SymbolTemp(ms: seq<Unit>, x: Spot)
    requires Stands(ms, x) && SymbolOf(InstAt(ms, x)).Some?
    ensures IsTemp(ms, Local(x.u, Serial(ms, x)))
    ensures forall l: Desc ::
              TempPoints(ms, Local(x.u, Serial(ms, x)), l) <==> l == GlobalOf(SymbolOf(InstAt(ms, x)).value)
  {
    var d := Local(x.u, Serial(ms, x));
    hide Serial;
    assert NamedAt(ms, x, d);
    forall y: Spot | NamedAt(ms, y, d) || MadeAt(ms, y, d) ensures y == x {
      OwnTemp(ms, x, y, Serial(ms, x));
    }
  }

  /** The second temporary of a bulk copy is nobody's object and nobody's symbol. */
  lemma BulkTemp(ms: seq<Unit>, x: Spot, l: Desc)
    requires Stands(ms, x) && InstAt(ms, x).Bulk? && !InstAt(ms, x).target.Unknown?
    ensures var d := Local(x.u, Serial(ms, x) + if InstAt(ms, x).target.Symbol? then 1 else 0);
            IsTemp(ms, d) && TempPoints(ms, d, l)
  {
    var k := Serial(ms, x) + if InstAt(ms, x).target.Symbol? then 1 else 0;
    var d := Local(x.u, k);
    hide Serial;
    forall y: Spot ensures !NamedAt(ms, y, d) && !MadeAt(ms, y, d) {
      if NamedAt(ms, y, d) || MadeAt(ms, y, d) {
        OwnTemp(ms, x, y, k);
        assert false;
      }
    }
  }

  lemma WithTempsAt(ms: seq<Unit>, rel: Rel, a: Desc, b: Desc)
    ensures (a, b) in WithTemps(ms, rel) <==> if IsTemp(ms, a) then TempPoints(ms, a, b) else (a, b) in rel
  {
  }

  lemma NotTemp(ms: seq<Unit>, x: Spot)
    requires Stands(ms, x) && InstAt(ms, x).Alloc?
    ensures !IsTemp(ms, Local(x.u, Serial(ms, x)))
  {
    assert MadeAt(ms, x, Local(x.u, Serial(ms, x)));
  }

  /** From registers and from what is pointed to, the larger relation leads nowhere new. */
  lemma SameFrom(ms: seq<Unit>, rel: Rel, a: Desc)
    requires !IsTemp(ms, a)
    ensures forall b: Desc :: (a, b) in WithTemps(ms, rel) <==> (a, b) in rel
  {
  }

  /** What an operand can be is what its node points to in the larger relation. */
  lemma SourcePoints(ms: seq<Unit>, rel: Rel, v: Value, x: Spot)
    requires Stands(ms, x) && !v.Unknown? && (v.Symbol? ==> SymbolOf(InstAt(ms, x)) == Some(v.name))
    ensures var d := Source(v, GlobalId(ms, x.u, x.f), x.u, Serial(ms, x));
            forall l: Desc :: (d, l) in WithTemps(ms, rel) <==> Points(ms, rel, v, x, l)
    ensures Names(WithTemps(ms, rel), v, x.u, Serial(ms, x))
  {
    if v.Symbol? {
      SymbolTemp(ms, x);
      hide Serial, IsTemp, TempPoints, InstAt, GlobalId;
      assert Source(v, GlobalId(ms, x.u, x.f), x.u, Serial(ms, x)) == Local(x.u, Serial(ms, x));
    } else {
      hide Serial, GlobalId;
      SameFrom(ms, rel, RegOf(GlobalId(ms, x.u, x.f), v.r));
    }
  }

  lemma MoveNoMore(ms: seq<Unit>, rel: Rel, x: Spot)
    requires Covers(ms, rel, x) && Stands(ms, x) && InstAt(ms, x).Move? && !InstAt(ms, x).src.Unknown?
    ensures SpotMeets(WithTemps(ms, rel), ms, x)
  {
    var i, g, k, big := InstAt(ms, x), GlobalId(ms, x.u, x.f), Serial(ms, x), WithTemps(ms, rel);
    MoveMeets(big, i, g, x.u, k);
    SourcePoints(ms, rel, i.src, x);
    SameFrom(ms, rel, RegOf(g, i.dst));
    hide Meets, OfInst, Serial, GlobalId, WithTemps, Points, Names, Source, IsTemp;
  }

  lemma StoreNoMore(ms: seq<Unit>, rel: Rel, x: Spot)
    requires Covers(ms, rel, x) && Proper(ms, rel) && Stands(ms, x)
    requires InstAt(ms, x).StorePtr? && !InstAt(ms, x).value.Unknown?
    ensures SpotMeets(WithTemps(ms, rel), ms, x)
  {
    var i, g, k, big := InstAt(ms, x), GlobalId(ms, x.u, x.f), Serial(ms, x), WithTemps(ms, rel);
    var v, p := Source(i.value, g, x.u, k), RegOf(g, i.ptr);
    StoreMeets(big, i, g, x.u, k);
    SourcePoints(ms, rel, i.value, x);
    SameFrom(ms, rel, p);
    hide Meets, OfInst, Serial, GlobalId, WithTemps, Points, Names, Source, IsTemp;
    forall l: Desc, m: Desc | (p, l) in big && (v, m) in big ensures (l, m) in big {
      assert !IsTemp(ms, l);
      SameFrom(ms, rel, l);
    }
  }

  lemma LoadNoMore(ms: seq<Unit>, rel: Rel, x: Spot)
    requires Covers(ms, rel, x) && Proper(ms, rel) && Stands(ms, x) && InstAt(ms, x).LoadPtr?
    ensures SpotMeets(WithTemps(ms, rel), ms, x)
  {
    var i, g, k, big := InstAt(ms, x), GlobalId(ms, x.u, x.f), Serial(ms, x), WithTemps(ms, rel);
    PlainMeets(big, i, g, x.u, k);
    SameFrom(ms, rel, RegOf(g, i.ptr));
    SameFrom(ms, rel, RegOf(g, i.dst));
    hide Meets, OfInst, Serial, GlobalId, WithTemps, IsTemp;
    forall l: Desc, m: Desc | (RegOf(g, i.ptr), l) in big && (l, m) in big ensures (RegOf(g, i.dst), m) in big {
      assert !IsTemp(ms, l);
      SameFrom(ms, rel, l);
    }
  }

  lemma BulkReaches(ms: seq<Unit>, rel: Rel, x: Spot, from: Desc)
    requires Stands(ms, x) && InstAt(ms, x).Bulk? && !InstAt(ms, x).target.Unknown?
    ensures var d := Local(x.u, Serial(ms, x) + if InstAt(ms, x).target.Symbol? then 1 else 0);
            Reaches(WithTemps(ms, rel), d, from, ANY_OFFSET)
  {
    var d := Local(x.u, Serial(ms, x) + if InstAt(ms, x).target.Symbol? then 1 else 0);
    hide Serial, Reach, IsTemp, TempPoints, WithTemps;
    forall l: Desc ensures (d, l) in WithTemps(ms, rel) {
      BulkTemp(ms, x, l);
      WithTempsAt(ms, rel, d, l);
    }
  }

  lemma BulkNoMore(ms: seq<Unit>, rel: Rel, x: Spot)
    requires Stands(ms, x) && InstAt(ms, x).Bulk? && !InstAt(ms, x).target.Unknown?
    ensures SpotMeets(WithTemps(ms, rel), ms, x)
  {
    hide Meets, OfInst, Serial, GlobalId, WithTemps, IsTemp, Names, Source, Points, Reaches;
    var i, g, k, big := InstAt(ms, x), GlobalId(ms, x.u, x.f), Serial(ms, x), WithTemps(ms, rel);
    BulkMeets(big, i, g, x.u, k);
    SourcePoints(ms, rel, i.target, x);
    BulkReaches(ms, rel, x, Source(i.target, g, x.u, k));
  }

  lemma OffsetCovered(ms: seq<Unit>, rel: Rel, x: Spot, l: Desc)
    requires Covers(ms, rel, x) && Stands(ms, x) && InstAt(ms, x).Offset? && (Reg(ms, x, InstAt(ms, x).base), l) in rel
    ensures var i := InstAt(ms, x);
            (Reg(ms, x, i.dst), Reach(l, if i.bytes.Some? then i.bytes.value else ANY_OFFSET)) in rel
  {
  }

  lemma PlainNoMore(ms: seq<Unit>, rel: Rel, x: Spot)
    requires Covers(ms, rel, x) && Stands(ms, x)
    requires match InstAt(ms, x)
             case Move(_, src) => src.Unknown?
             case StorePtr(_, value) => value.Unknown?
             case Bulk(target) => target.Unknown?
             case LoadPtr(_, _) => false
             case _ => true
    ensures SpotMeets(WithTemps(ms, rel), ms, x)
  {
    var i, g, k, big := InstAt(ms, x), GlobalId(ms, x.u, x.f), Serial(ms, x), WithTemps(ms, rel);
    PlainMeets(big, i, g, x.u, k);
    match i {
      case Alloc(dst) => SameFrom(ms, rel, RegOf(g, dst));
      case Offset(dst, base, _) =>
        SameFrom(ms, rel, RegOf(g, dst));
        SameFrom(ms, rel, RegOf(g, base));
      case FieldPtr(dst, base) =>
        SameFrom(ms, rel, RegOf(g, dst));
        SameFrom(ms, rel, RegOf(g, base));
      case Call(result, _, _) =>
        if result.Some? {
          SameFrom(ms, rel, RegOf(g, result.value));
        }
      case _ =>
    }
    hide Meets, OfInst, Serial, GlobalId, WithTemps, IsTemp, Reach;
    if i.Offset? {
      var off := if i.bytes.Some? then i.bytes.value else ANY_OFFSET;
      forall l: Desc | (RegOf(g, i.base), l) in big ensures (RegOf(g, i.dst), Reach(l, off)) in big {
        OffsetCovered(ms, rel, x, l);
      }
      assert Reaches(big, RegOf(g, i.dst), RegOf(g, i.base), off);
    }
  }

  lemma SpotNoMore(ms: seq<Unit>, rel: Rel, x: Spot)
    requires Covers(ms, rel, x) && Proper(ms, rel)
    ensures SpotMeets(WithTemps(ms, rel), ms, x)
  {
    if Stands(ms, x) {
      hide Covers, Proper, SpotMeets;
      match InstAt(ms, x)
      case Move(_, src) =>
        if src.Unknown? {
          PlainNoMore(ms, rel, x);
        } else {
          MoveNoMore(ms, rel, x);
        }
      case StorePtr(_, value) =>
        if value.Unknown? {
          PlainNoMore(ms, rel, x);
        } else {
          StoreNoMore(ms, rel, x);
        }
      case Bulk(target) =>
        if target.Unknown? {
          PlainNoMore(ms, rel, x);
        } else {
          BulkNoMore(ms, rel, x);
        }
      case LoadPtr(_, _) => LoadNoMore(ms, rel, x);
      case _ => PlainNoMore(ms, rel, x);
    }
  }

  lemma EntryNoMore(ms: seq<Unit>, rel: Rel, u: nat, i: nat)
    requires u < |ms| && i < |ms[u].inits| && CoversInit(ms[u], rel, ms[u].inits[i])
    ensures EntryMeets(WithTemps(ms, rel), ms, u, i)
  {
    var init := ms[u].inits[i];
    EntryCovers(WithTemps(ms, rel), ms, u, i);
    SameFrom(ms, rel, if init.off == ANY_OFFSET then Top else Reach(GlobalOf(init.global), init.off));
    hide WithTemps, EntryMeets;
  }

  /**
   Any relation that covers instructions and initialisers meets all collected
   constraints once the temporaries are added, which changes nothing at
   registers, objects, globals and their fields. So the least relation that
   meets the constraints has only what instructions can add.
   */
  lemma NoMore(ms: seq<Unit>, rel: Rel)
    requires CoversAll(ms, rel) && Proper(ms, rel)
    ensures Meets(WithTemps(ms, rel), PushedAll(EMPTY, ms).lists)
    ensures forall a: Desc, b: Desc :: !IsTemp(ms, a) ==> ((a, b) in WithTemps(ms, rel) <==> (a, b) in rel)
  {
    forall a: Desc, b: Desc | !IsTemp(ms, a) ensures (a, b) in WithTemps(ms, rel) <==> (a, b) in rel {
      WithTempsAt(ms, rel, a, b);
    }
    EachMeaning(WithTemps(ms, rel), ms);
    hide Meets, PushedAll, Covers, CoversInit, SpotMeets, EntryMeets, WithTemps, Proper, IsTemp;
    forall x: Spot ensures SpotMeets(WithTemps(ms, rel), ms, x) {
      assert Covers(ms, rel, x);
      SpotNoMore(ms, rel, x);
    }
    forall u: nat, i: nat ensures EntryMeets(WithTemps(ms, rel), ms, u, i) {
      if u < |ms| && i < |ms[u].inits| {
        EntryNoMore(ms, rel, u, i);
      } else {
        EntryBeyond(WithTemps(ms, rel), ms, u, i);
      }
    }
  }

  lemma EntryBeyond(rel: Rel, ms: seq<Unit>, u: nat, i: nat)
    requires u >= |ms| || i >= |ms[u].inits|
    ensures EntryMeets(rel, ms, u, i)
  {
  }
}
