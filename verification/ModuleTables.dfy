/**
 What the builder's tables know of the modules it was given (crates/absint/src/pointsto.rs:577-612, 652-672).
 */
module ModuleTables {
  import opened Wrappers
  import opened Shards
  import opened ModuleRuns

  // ------------------------------------------------------------ what is to be known

  /** Function `f` of module `u` is one of the first `n` modules' and has the id. */
  ghost predicate IsFn(ms: seq<Unit>, n: nat, g: nat, u: nat, f: nat) {
    u < n <= |ms| && f < |ms[u].fns| && g == FnsBefore(ms, u) + f
  }

  ghost predicate FnKnown(ms: seq<Unit>, t: Tables, u: nat, f: nat)
    requires u < |ms| && f < |ms[u].fns|
  {
    var g, fn := FnsBefore(ms, u) + f, ms[u].fns[f];
    g in t.params && t.params[g] == fn.params && g in t.meta && t.meta[g] == (fn.name, fn.internal)
  }

  ghost predicate FnsKnown(ms: seq<Unit>, n: nat, t: Tables) {
    && (forall u: nat, f: nat :: u < n && u < |ms| && f < |ms[u].fns| ==> FnKnown(ms, t, u, f))
    && (forall g: nat :: g in t.params || g in t.meta ==> SomeFn(ms, n, g))
  }

  ghost predicate SomeFn(ms: seq<Unit>, n: nat, g: nat) {
    exists u: nat, f: nat :: IsFn(ms, n, g, u, f)
  }

  ghost predicate NamesFn(ms: seq<Unit>, n: nat, name: string) {
    exists u: nat, f: nat :: u < n && u < |ms| && f < |ms[u].fns| && ms[u].fns[f].name == name
  }

  ghost predicate NamesKnown(ms: seq<Unit>, n: nat, t: Tables) {
    forall name: string :: name in t.fnNames <==> NamesFn(ms, n, name)
  }

  /** The initialiser says something: a function pointer must name a function of its module. */
  predicate Told(i: Init, fns: seq<Fn>) {
    i.FnPtr? ==> i.id < |fns|
  }

  ghost predicate Initialised(ms: seq<Unit>, n: nat, name: string) {
    exists u: nat, i: nat ::
      u < n && u < |ms| && i < |ms[u].inits| && ms[u].inits[i].global == name && Told(ms[u].inits[i], ms[u].fns)
  }

  ghost predicate GlobalsKnown(ms: seq<Unit>, n: nat, t: Tables) {
    forall name: string :: name in t.constGlobals <==> Initialised(ms, n, name)
  }

  /** The call, as it is put off until all functions are known. */
  ghost predicate CallAt(ms: seq<Unit>, n: nat, x: Spot, d: Deferred) {
    && Stands(ms, x) && x.u < n && InstAt(ms, x).Call?
    && d.caller == FnsBefore(ms, x.u) + x.f && d.args == InstAt(ms, x).args
    && d.target == match InstAt(ms, x).callee
                   case Direct(i) => Known(FnsBefore(ms, x.u) + i)
                   case Named(name) => ByName(name)
                   case Indirect => Nobody
  }

  ghost predicate CallsKnown(ms: seq<Unit>, n: nat, t: Tables) {
    forall d: Deferred :: d in t.deferred <==> SomeCall(ms, n, d)
  }

  ghost predicate SomeCall(ms: seq<Unit>, n: nat, d: Deferred) {
    exists x: Spot :: CallAt(ms, n, x, d)
  }

  // ------------------------------------------------------------ functions

  lemma {:induction false} FnsEntered(t: Tables, fns: seq<Fn>, base: nat, n: nat)
    requires n <= |fns|
    ensures var s := EnterFns(t, fns[..n], base);
            && (forall g: nat :: g in s.params <==> g in t.params || base <= g < base + n)
            && (forall g: nat :: g in s.meta <==> g in t.meta || base <= g < base + n)
            && (forall f: nat :: f < n ==>
                  && s.params[base + f] == fns[f].params && s.meta[base + f] == (fns[f].name, fns[f].internal))
            && (forall g: nat :: g in t.params && !(base <= g < base + n) ==> s.params[g] == t.params[g])
            && (forall g: nat :: g in t.meta && !(base <= g < base + n) ==> s.meta[g] == t.meta[g])
            && (forall name: string ::
                  name in s.fnNames <==> name in t.fnNames || exists f: nat :: f < n && fns[f].name == name)
            && s.constGlobals == t.constGlobals && s.deferred == t.deferred && s.next == t.next
  {
    if n > 0 {
      FnsEntered(t, fns, base, n - 1);
      assert fns[..n][..n - 1] == fns[..n - 1];
      hide NameEntered;
      var r, s := EnterFns(t, fns[..n - 1], base), EnterFns(t, fns[..n], base);
      assert s == EnterFn(r, fns[n - 1], base + n - 1);
      forall name: string
        ensures name in s.fnNames <==> name in t.fnNames || exists f: nat :: f < n && fns[f].name == name
      {
      }
    }
  }

  // ------------------------------------------------------------ initialisers

  ghost predicate InitNames(inits: seq<Init>, fns: seq<Fn>, n: nat, name: string) {
    exists i: nat :: i < n && i < |inits| && inits[i].global == name && Told(inits[i], fns)
  }

  lemma InitEntered(t: Tables, i: Init, fns: seq<Fn>)
    ensures var s := EnterInit(t, i, fns);
            && s.params == t.params && s.meta == t.meta && s.deferred == t.deferred && s.next == t.next
            && t.fnNames <= s.fnNames && (forall name :: name in s.fnNames ==>
                  name in t.fnNames || (i.FnPtr? && i.id < |fns| && name == fns[i.id].name))
            && s.constGlobals == t.constGlobals + if Told(i, fns) then {i.global} else {}
  {
  }

  lemma {:induction false} InitsEntered(t: Tables, inits: seq<Init>, fns: seq<Fn>, n: nat)
    requires n <= |inits| && forall f: nat :: f < |fns| ==> fns[f].name in t.fnNames
    ensures var s := EnterInits(t, inits[..n], fns);
            && s.params == t.params && s.meta == t.meta && s.deferred == t.deferred && s.next == t.next
            && s.fnNames == t.fnNames
            && (forall name: string :: name in s.constGlobals <==>
                name in t.constGlobals || InitNames(inits, fns, n, name))
  {
    if n > 0 {
      InitsEntered(t, inits, fns, n - 1);
      assert inits[..n][..n - 1] == inits[..n - 1];
      var r, s := EnterInits(t, inits[..n - 1], fns), EnterInits(t, inits[..n], fns);
      assert s == EnterInit(r, inits[n - 1], fns);
      InitEntered(r, inits[n - 1], fns);
      hide EnterInit, EnterInits, Told;
      assert s.fnNames == t.fnNames;
      forall name: string
        ensures InitNames(inits, fns, n, name) <==>
                InitNames(inits, fns, n - 1, name) || (inits[n - 1].global == name && Told(inits[n - 1], fns))
      {
      }
      hide InitNames;
    }
  }

  // ------------------------------------------------------------ calls

  lemma {:induction false} CallsIn(insts: seq<Inst>, g: nat, base: nat, n: nat, d: Deferred)
    requires n <= |insts|
    ensures d in DeferredIn(insts[..n], g, base) <==> exists j: nat :: j < n && d in DeferredOf(insts[j], g, base)
  {
    if n > 0 {
      CallsIn(insts, g, base, n - 1, d);
      assert insts[..n][..n - 1] == insts[..n - 1];
      hide DeferredOf;
    }
  }

  predicate FnDefers(fns: seq<Fn>, base: nat, f: nat, d: Deferred) {
    f < |fns| && d in DeferredIn(fns[f].insts, base + f, base)
  }

  lemma {:induction false} CallsAll(fns: seq<Fn>, base: nat, n: nat, d: Deferred)
    requires n <= |fns|
    ensures d in DeferredAll(fns[..n], base) <==> exists f: nat :: f < n && FnDefers(fns, base, f, d)
  {
    hide DeferredIn;
    if n > 0 {
      CallsAll(fns, base, n - 1, d);
      assert fns[..n][..n - 1] == fns[..n - 1];
      assert base + n - 1 == base + (n - 1);
      assert FnDefers(fns, base, n - 1, d) <==> d in DeferredIn(fns[n - 1].insts, base + n - 1, base);
      hide FnDefers;
    }
  }

  ghost predicate CallInFn(ms: seq<Unit>, u: nat, f: nat, d: Deferred) {
    exists j: nat :: CallAt(ms, u + 1, Spot(u, f, j), d)
  }

  ghost predicate CallInUnit(ms: seq<Unit>, u: nat, d: Deferred) {
    exists f: nat :: CallInFn(ms, u, f, d)
  }

  /** The deferred calls of a module are those of its call instructions. */
  lemma {:induction false} UnitCalls(ms: seq<Unit>, u: nat, d: Deferred)
    requires u < |ms|
    ensures d in DeferredAll(ms[u].fns, FnsBefore(ms, u)) <==> CallInUnit(ms, u, d)
  {
    hide DeferredIn, DeferredAll, FnsBefore, CallInFn, FnDefers;
    var fns, base := ms[u].fns, FnsBefore(ms, u);
    assert fns[..|fns|] == fns;
    CallsAll(fns, base, |fns|, d);
    forall f: nat ensures CallInFn(ms, u, f, d) <==> f < |fns| && FnDefers(fns, base, f, d) {
      if f < |fns| {
        FnCalls(ms, u, f, d);
      } else {
        NoFnCalls(ms, u, f, d);
      }
    }
  }

  lemma NoFnCalls(ms: seq<Unit>, u: nat, f: nat, d: Deferred)
    requires u < |ms| && f >= |ms[u].fns|
    ensures !CallInFn(ms, u, f, d)
  {
  }

  lemma {:induction false} FnCalls(ms: seq<Unit>, u: nat, f: nat, d: Deferred)
    requires u < |ms| && f < |ms[u].fns|
    ensures FnDefers(ms[u].fns, FnsBefore(ms, u), f, d) <==> CallInFn(ms, u, f, d)
  {
    var insts, base := ms[u].fns[f].insts, FnsBefore(ms, u);
    assert insts[..|insts|] == insts;
    CallsIn(insts, base + f, base, |insts|, d);
    hide DeferredIn, FnsBefore;
    forall j: nat
      ensures CallAt(ms, u + 1, Spot(u, f, j), d) <==> j < |insts| && d in DeferredOf(insts[j], base + f, base)
    {
    }
    hide CallAt, DeferredOf;
  }

  // ------------------------------------------------------------ one more module

  lemma FnsNext(ms: seq<Unit>, n: nat, t: Tables, s: Tables)
    requires n < |ms| && FnsKnown(ms, n, t)
    requires var base, fns := FnsBefore(ms, n), ms[n].fns;
             && (forall g: nat :: g in s.params <==> g in t.params || base <= g < base + |fns|)
             && (forall g: nat :: g in s.meta <==> g in t.meta || base <= g < base + |fns|)
             && (forall f: nat :: f < |fns| ==>
                   s.params[base + f] == fns[f].params && s.meta[base + f] == (fns[f].name, fns[f].internal))
             && (forall g: nat :: g in t.params && !(base <= g < base + |fns|) ==> s.params[g] == t.params[g])
             && (forall g: nat :: g in t.meta && !(base <= g < base + |fns|) ==> s.meta[g] == t.meta[g])
    ensures FnsKnown(ms, n + 1, s)
  {
    var base, fns := FnsBefore(ms, n), ms[n].fns;
    forall u: nat, f: nat | u < n + 1 && u < |ms| && f < |ms[u].fns| ensures FnKnown(ms, s, u, f) {
      if u < n {
        FnsOrdered(ms, u, n);
        assert FnKnown(ms, t, u, f);
      }
    }
    forall g: nat | g in s.params || g in s.meta ensures SomeFn(ms, n + 1, g) {
      if base <= g < base + |fns| {
        assert IsFn(ms, n + 1, g, n, g - base);
      } else {
        var u: nat, f: nat :| IsFn(ms, n, g, u, f);
        assert IsFn(ms, n + 1, g, u, f);
      }
    }
  }

  lemma {:induction false} FnsOrdered(ms: seq<Unit>, u: nat, n: nat)
    requires u < n <= |ms|
    ensures FnsBefore(ms, u) + |ms[u].fns| <= FnsBefore(ms, n)
  {
    if u < n - 1 {
      FnsOrdered(ms, u, n - 1);
    }
  }

  lemma NamesNext(ms: seq<Unit>, n: nat, t: Tables, s: Tables)
    requires n < |ms| && NamesKnown(ms, n, t)
    requires forall name: string ::
               name in s.fnNames <==> name in t.fnNames || exists f: nat :: f < |ms[n].fns| && ms[n].fns[f].name == name
    ensures NamesKnown(ms, n + 1, s)
  {
    forall name: string
      ensures NamesFn(ms, n + 1, name) <==>
              NamesFn(ms, n, name) || exists f: nat :: f < |ms[n].fns| && ms[n].fns[f].name == name
    {
    }
    hide NamesFn;
  }

  lemma GlobalsNext(ms: seq<Unit>, n: nat, t: Tables, s: Tables)
    requires n < |ms| && GlobalsKnown(ms, n, t)
    requires forall name: string :: name in s.constGlobals <==>
               name in t.constGlobals || InitNames(ms[n].inits, ms[n].fns, |ms[n].inits|, name)
    ensures GlobalsKnown(ms, n + 1, s)
  {
    hide Told;
    forall name: string
      ensures Initialised(ms, n + 1, name) <==>
              Initialised(ms, n, name) || InitNames(ms[n].inits, ms[n].fns, |ms[n].inits|, name)
    {
    }
    hide Initialised, InitNames;
  }

  lemma CallsNext(ms: seq<Unit>, n: nat, t: Tables, s: Tables)
    requires n < |ms| && CallsKnown(ms, n, t) && s.deferred == t.deferred + DeferredAll(ms[n].fns, FnsBefore(ms, n))
    ensures CallsKnown(ms, n + 1, s)
  {
    forall d: Deferred ensures d in s.deferred <==> SomeCall(ms, n + 1, d) {
      UnitCalls(ms, n, d);
      OneMoreUnit(ms, n, d);
      hide CallInUnit, SomeCall, DeferredAll;
    }
  }

  lemma OneMoreUnit(ms: seq<Unit>, n: nat, d: Deferred)
    ensures SomeCall(ms, n + 1, d) <==> SomeCall(ms, n, d) || CallInUnit(ms, n, d)
  {
    assert forall x: Spot :: CallAt(ms, n + 1, x, d) <==> CallAt(ms, n, x, d) || (x.u == n && CallAt(ms, n + 1, x, d));
    hide CallAt;
    if x: Spot :| x.u == n && CallAt(ms, n + 1, x, d) {
      assert x == Spot(n, x.f, x.j);
      assert CallInFn(ms, n, x.f, d);
    }
    if CallInUnit(ms, n, d) {
      var f: nat :| CallInFn(ms, n, f, d);
      var j: nat :| CallAt(ms, n + 1, Spot(n, f, j), d);
    }
  }

  ghost predicate AllKnown(ms: seq<Unit>, n: nat, t: Tables) {
    FnsKnown(ms, n, t) && NamesKnown(ms, n, t) && GlobalsKnown(ms, n, t) && CallsKnown(ms, n, t)
  }

  lemma UnitEntered(ms: seq<Unit>, n: nat, t: Tables)
    requires n < |ms| && AllKnown(ms, n, t) && t.next == FnsBefore(ms, n)
    ensures AllKnown(ms, n + 1, PushTables(t, ms[n])) && PushTables(t, ms[n]).next == FnsBefore(ms, n + 1)
  {
    hide FnsKnown, NamesKnown, GlobalsKnown, CallsKnown, EnterFns, EnterInits, DeferredAll, InitNames, Told;
    var m := ms[n];
    assert m.fns[..|m.fns|] == m.fns && m.inits[..|m.inits|] == m.inits;
    FnsEntered(t, m.fns, t.next, |m.fns|);
    var r := EnterFns(t, m.fns, t.next);
    InitsEntered(r, m.inits, m.fns, |m.inits|);
    var s := PushTables(t, m);
    FnsNext(ms, n, t, s);
    NamesNext(ms, n, t, s);
    GlobalsNext(ms, n, t, s);
    CallsNext(ms, n, t, s);
  }

  lemma NoneKnown(ms: seq<Unit>)
    ensures AllKnown(ms, 0, EMPTY.tables)
  {
  }

  lemma {:induction false} PushedKnown(ms: seq<Unit>, n: nat)
    requires n <= |ms|
    ensures var t := PushedAll(EMPTY, ms[..n]).tables; AllKnown(ms, n, t) && t.next == FnsBefore(ms, n)
  {
    if n == 0 {
      NoneKnown(ms);
    } else {
      PushedKnown(ms, n - 1);
      var s := ms[..n];
      assert s[..|s| - 1] == ms[..n - 1] && s[|s| - 1] == ms[n - 1];
      hide AllKnown, PushTables, OfUnit, PoisonedBy;
      UnitEntered(ms, n - 1, PushedAll(EMPTY, ms[..n - 1]).tables);
    }
  }

  /**
   After a build the tables have every function of every module under its own
   id and no other id, every function name, every global with an initialiser,
   and every call with its caller and callee, and nothing else.
   */
  lemma TablesTell(ms: seq<Unit>)
    ensures var t := PushedAll(EMPTY, ms).tables;
            && FnsKnown(ms, |ms|, t) && NamesKnown(ms, |ms|, t) && GlobalsKnown(ms, |ms|, t) && CallsKnown(ms, |ms|, t)
            && t.next == FnsBefore(ms, |ms|)
  {
    PushedKnown(ms, |ms|);
    assert ms[..|ms|] == ms;
    hide FnsKnown, NamesKnown, GlobalsKnown, CallsKnown, PushedAll;
  }
}
