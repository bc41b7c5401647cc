/**
 Merging nodes that copy into each other changes no answer: the least solution of the merged constraints is the
 image of the original one (crates/absint/src/pointsto.rs:866-1086).
 */
module Quotient {
  import opened Graphs
  import opened PointsToRules

  /** The renumbering, applied to names. */
  function Rho(h: seq<nat>, l: Loc): Loc {
    match l
    case Base(i) => if i < |h| then Base(h[i]) else l
    case Field(o, off) => Field(Rho(h, o), off)
  }

  /** The node is merged with no other. */
  ghost predicate Alone(h: seq<nat>, x: nat) {
    x < |h| && forall y: nat :: y < |h| && h[y] == h[x] ==> y == x
  }

  /** Address-of targets, poisoned objects, field cells, their owners and TOP are merged with nothing. */
  ghost predicate ObjectsAlone(sys: System, h: seq<nat>) {
    && Alone(h, TOP)
    && (forall p: nat, o: nat :: (p, o) in sys.addr ==> Alone(h, o))
    && (forall x: nat, o: nat :: x < |sys.start.pts| && o in sys.start.pts[x] ==> Alone(h, o))
    && (forall o: nat :: o in sys.start.poisoned ==> Alone(h, o))
    && (forall o: nat, off: nat :: (o, off) in sys.start.cells ==> Alone(h, o) && Alone(h, sys.start.cells[(o, off)]))
  }

  /** The copy constraints as a graph: an edge from `s` to `d` for every `d` that includes `s`. */
  ghost predicate IsCopyGraph(sys: System, g: Graph) {
    && g.N() == sys.start.n
    && (forall s: nat, d: nat :: g.Edge(s, d) ==> (d, s) in sys.copies)
  }

  /** Only nodes that copy into each other are merged. */
  ghost predicate MergesCycles(sys: System, h: seq<nat>) {
    exists g: Graph :: IsCopyGraph(sys, g) &&
      forall u: nat, v: nat :: u < |h| && v < |h| && h[u] == h[v] ==> Reachable(g, u, v)
  }

  ghost predicate PairsImage(h: seq<nat>, src: seq<(nat, nat)>, out: seq<(nat, nat)>) {
    && (forall a: nat, b: nat :: (a, b) in src ==> a < |h| && b < |h| && (h[a], h[b]) in out)
    && (forall a: nat, b: nat :: (a, b) in out ==> PairFrom(h, src, a, b))
  }

  ghost predicate PairFrom(h: seq<nat>, src: seq<(nat, nat)>, a: nat, b: nat) {
    exists x: nat, y: nat :: (x, y) in src && x < |h| && y < |h| && h[x] == a && h[y] == b
  }

  ghost predicate CopiesImage(h: seq<nat>, src: seq<(nat, nat)>, out: seq<(nat, nat)>) {
    && (forall a: nat, b: nat :: (a, b) in src ==> a < |h| && b < |h| && (h[a] == h[b] || (h[a], h[b]) in out))
    && (forall a: nat, b: nat :: (a, b) in out ==> PairFrom(h, src, a, b))
  }

  ghost predicate GepFrom(h: seq<nat>, src: seq<(nat, nat, nat)>, a: nat, b: nat, off: nat) {
    exists x: nat, y: nat :: (x, y, off) in src && x < |h| && y < |h| && h[x] == a && h[y] == b
  }

  ghost predicate GepsImage(h: seq<nat>, src: seq<(nat, nat, nat)>, out: seq<(nat, nat, nat)>) {
    && (forall a: nat, b: nat, off: nat :: (a, b, off) in src ==> a < |h| && b < |h| && (h[a], h[b], off) in out)
    && (forall a: nat, b: nat, off: nat :: (a, b, off) in out ==> GepFrom(h, src, a, b, off))
  }

  ghost predicate FactFrom(h: seq<nat>, s: State, j: nat, c: nat) {
    exists x: nat, o: nat :: x < |s.pts| && x < |h| && h[x] == j && o in s.pts[x] && o < |h| && h[o] == c
  }

  /** The target `o` of `x`, renamed, is a target of the renamed `x`. */
  ghost predicate Kept(h: seq<nat>, pts: seq<set<nat>>, x: nat, o: nat) {
    x < |h| && o < |h| && h[x] < |pts| && h[o] in pts[h[x]]
  }

  /** The starting sets and marks, carried over. */
  ghost predicate StateImage(h: seq<nat>, s: State, t: State) {
    && (forall x: nat, o: nat {:trigger Kept(h, t.pts, x, o)} ::
          x < |s.pts| && o in s.pts[x] ==> Kept(h, t.pts, x, o))
    && (forall j: nat, c: nat :: j < |t.pts| && c in t.pts[j] ==> FactFrom(h, s, j, c))
    && (forall o: nat :: o in s.poisoned ==> o < |h| && h[o] in t.poisoned)
    && (forall j: nat :: j in t.poisoned ==> exists o: nat :: o in s.poisoned && o < |h| && h[o] == j)
    && (forall x: nat :: x < |s.names| && x < |h| ==> h[x] < |t.names| && t.names[h[x]] == Rho(h, s.names[x]))
  }

  /** `sys'` is `sys` with nodes renumbered, and merged, by `h`. */
  ghost predicate IsQuotient(sys: System, sys': System, h: seq<nat>) {
    && |h| == sys.start.n
    && (forall x: nat :: x < |h| ==> h[x] < |h|)
    && (|h| > TOP ==> h[TOP] == TOP)
    && PairsImage(h, sys.addr, sys'.addr) && CopiesImage(h, sys.copies, sys'.copies)
    && GepsImage(h, sys.geps, sys'.geps)
    && PairsImage(h, sys.loads, sys'.loads) && PairsImage(h, sys.stores, sys'.stores)
    && StateImage(h, sys.start, sys'.start)
  }

  // ------------------------------------------------------------ names

  /** Names of objects, as far as merging goes: their base node stands alone. */
  ghost predicate Obj(h: seq<nat>, l: Loc) {
    match l
    case Base(i) => Alone(h, i)
    case Field(o, _) => Obj(h, o)
  }

  /** Names that may carry a points-to set. */
  ghost predicate Dom(h: seq<nat>, l: Loc) {
    match l
    case Base(i) => i < |h|
    case Field(o, _) => Obj(h, o)
  }

  lemma ObjDom(h: seq<nat>, l: Loc)
    requires Obj(h, l)
    ensures Dom(h, l)
  {
  }

  /** Renaming identifies an object's name with no other. */
  lemma {:induction false} RhoInjective(h: seq<nat>, a: Loc, b: Loc)
    requires Obj(h, b) && Dom(h, a) && Rho(h, a) == Rho(h, b)
    ensures a == b
  {
    match (a, b)
    case (Base(i), Base(j)) =>
    case (Field(o, off), Field(o', off')) =>
      ObjDom(h, o);
      RhoInjective(h, o, o');
    case _ =>
  }

  lemma RhoTop(h: seq<nat>, l: Loc, off: nat)
    requires Obj(h, l) && Alone(h, TOP) && h[TOP] == TOP
    ensures Rho(h, Access(l, off)) == Access(Rho(h, l), off) && Obj(h, Access(l, off))
  {
  }

  /** Objects of the system have object names. */
  lemma {:induction false} ObjName(sys: System, h: seq<nat>, x: nat)
    requires Good(sys.start) && |h| == sys.start.n && ObjectsAlone(sys, h) && x < sys.start.n && Alone(h, x)
    ensures Obj(h, sys.start.names[x])
    decreases sys.start.names[x]
  {
    var st := sys.start;
    if st.names[x] != Base(x) {
      var o: nat, off: nat :| (o, off) in st.cells && st.cells[(o, off)] == x;
      assert st.names[x] == Field(st.names[o], off);
      hide Named, Marked;
      ObjName(sys, h, o);
    }
  }

  lemma DomName(sys: System, h: seq<nat>, x: nat)
    requires Good(sys.start) && |h| == sys.start.n && ObjectsAlone(sys, h) && x < sys.start.n
    ensures Dom(h, sys.start.names[x])
  {
    if sys.start.names[x] != Base(x) {
      var o: nat, off: nat :| (o, off) in sys.start.cells && sys.start.cells[(o, off)] == x;
      ObjName(sys, h, x);
      ObjDom(h, sys.start.names[x]);
    }
  }

  // ------------------------------------------------------------ copies

  lemma {:induction false} PathIncludes(sys: System, g: Graph, p: Facts, path: seq<nat>, u: nat, v: nat)
    requires Scoped(sys, sys.start.n) && Good(sys.start) && Closed(sys, p) && IsCopyGraph(sys, g)
    requires PathFromTo(g, path, u, v)
    ensures u < sys.start.n && v < sys.start.n && Includes(p, sys.start.names[v], sys.start.names[u])
    decreases |path|
  {
    if |path| > 1 {
      assert g.Edge(u, path[1]);
      assert Includes(p, sys.start.names[path[1]], sys.start.names[u]);
      assert PathFromTo(g, path[1..], path[1], v);
      PathIncludes(sys, g, p, path[1..], path[1], v);
    }
  }

  /** Merged nodes have the same set in every solution. */
  lemma MergedEqual(sys: System, h: seq<nat>, p: Facts, u: nat, v: nat)
    requires Scoped(sys, sys.start.n) && Good(sys.start) && Closed(sys, p) && MergesCycles(sys, h)
    requires |h| == sys.start.n && u < |h| && v < |h| && h[u] == h[v]
    ensures Includes(p, sys.start.names[v], sys.start.names[u])
  {
    var g: Graph :| IsCopyGraph(sys, g) &&
      forall u: nat, v: nat :: u < |h| && v < |h| && h[u] == h[v] ==> Reachable(g, u, v);
    assert Reachable(g, u, v);
    var path :| PathFromTo(g, path, u, v);
    PathIncludes(sys, g, p, path, u, v);
  }

  // ------------------------------------------------------------ from the original to the merged system

  ghost function PullBack(h: seq<nat>, q: Facts): Facts {
    iset f: (Loc, Loc) | (Rho(h, f.0), Rho(h, f.1)) in q
  }

  ghost predicate Setting(sys: System, sys': System, h: seq<nat>) {
    && Scoped(sys, sys.start.n) && Good(sys.start) && Scoped(sys', sys'.start.n) && Good(sys'.start)
    && NoAnyOffset(sys) && IsQuotient(sys, sys', h) && ObjectsAlone(sys, h)
  }

  lemma NameMap(sys: System, sys': System, h: seq<nat>, x: nat)
    requires Setting(sys, sys', h) && x < sys.start.n
    ensures x < |h| == |sys.start.names| == |sys.start.pts|
    ensures h[x] < sys'.start.n == |sys'.start.names| == |sys'.start.pts|
    ensures sys'.start.names[h[x]] == Rho(h, sys.start.names[x])
    ensures Dom(h, sys.start.names[x])
  {
    DomName(sys, h, x);
    hide Named, Marked, Scoped, ObjectsAlone, PairsImage, CopiesImage, GepsImage, FactFrom;
  }

  lemma PullIncludes(h: seq<nat>, q: Facts, d: Loc, s: Loc)
    requires Includes(q, Rho(h, d), Rho(h, s))
    ensures Includes(PullBack(h, q), d, s)
  {
  }

  lemma PullLoad(h: seq<nat>, q: Facts, d: Loc, s: Loc)
    requires LoadHolds(q, Rho(h, d), Rho(h, s))
    ensures LoadHolds(PullBack(h, q), d, s)
  {
    forall l: Loc | (s, l) in PullBack(h, q) ensures Includes(PullBack(h, q), d, l) {
      PullIncludes(h, q, d, l);
    }
  }

  lemma PullStore(h: seq<nat>, q: Facts, v: Loc, p: Loc)
    requires StoreHolds(q, Rho(h, v), Rho(h, p))
    ensures StoreHolds(PullBack(h, q), v, p)
  {
    forall l: Loc | (p, l) in PullBack(h, q) ensures Includes(PullBack(h, q), l, v) {
      PullIncludes(h, q, l, v);
    }
  }

  /** Renaming commutes with field access, even for names outside the solution. */
  lemma RhoAccess(h: seq<nat>, l: Loc, off: nat)
    requires Alone(h, TOP) && h[TOP] == TOP
    ensures Rho(h, Access(l, off)) == Access(Rho(h, l), off)
  {
  }

  lemma PullGep(h: seq<nat>, q: Facts, d: Loc, s: Loc, off: nat)
    requires GepHolds(q, Rho(h, d), Rho(h, s), off) && Alone(h, TOP) && h[TOP] == TOP
    ensures GepHolds(PullBack(h, q), d, s, off)
  {
    forall l: Loc | (s, l) in PullBack(h, q) ensures (d, Access(l, off)) in PullBack(h, q) {
      RhoAccess(h, l, off);
    }
  }

  lemma PullStarts(sys: System, sys': System, h: seq<nat>, q: Facts)
    requires Setting(sys, sys', h) && Closed(sys', q)
    ensures forall x: nat, o: nat :: x < sys.start.n && o in sys.start.pts[x] ==>
              (sys.start.names[x], sys.start.names[o]) in PullBack(h, q)
    ensures forall o: nat, off: nat :: o in sys.start.poisoned ==>
              (Field(sys.start.names[o], off), Base(TOP)) in PullBack(h, q)
  {
    assert Alone(h, TOP) && Rho(h, Base(TOP)) == Base(TOP);
    forall x: nat, o: nat | x < sys.start.n && o in sys.start.pts[x]
      ensures (sys.start.names[x], sys.start.names[o]) in PullBack(h, q)
    {
      NameMap(sys, sys', h, x);
      NameMap(sys, sys', h, o);
      assert Kept(h, sys'.start.pts, x, o);
    }
    forall o: nat, off: nat | o in sys.start.poisoned
      ensures (Field(sys.start.names[o], off), Base(TOP)) in PullBack(h, q)
    {
      NameMap(sys, sys', h, o);
      assert h[o] in sys'.start.poisoned;
      assert (Field(sys'.start.names[h[o]], off), Base(TOP)) in q;
    }
  }

  /** Any solution of the merged system, read back, solves the original one. */
  lemma PullCloses(sys: System, sys': System, h: seq<nat>, q: Facts)
    requires Setting(sys, sys', h) && Closed(sys', q)
    ensures Closed(sys, PullBack(h, q))
  {
    var p, nm, nm' := PullBack(h, q), sys.start.names, sys'.start.names;
    PullStarts(sys, sys', h, q);
    assert Alone(h, TOP) && h[TOP] == TOP;
    hide Named, Marked, StateImage, Includes, LoadHolds, StoreHolds, GepHolds, Alone, PullBack, Rho, Dom;
    forall a: nat, o: nat | (a, o) in sys.addr ensures (nm[a], nm[o]) in p {
      NameMap(sys, sys', h, a);
      NameMap(sys, sys', h, o);
      PullIn(h, q, nm[a], nm[o]);
    }
    forall d: nat, s: nat | (d, s) in sys.copies ensures Includes(p, nm[d], nm[s]) {
      NameMap(sys, sys', h, d);
      NameMap(sys, sys', h, s);
      if h[d] == h[s] {
        SelfIncludes(q, nm'[h[d]]);
      }
      PullIncludes(h, q, nm[d], nm[s]);
    }
    forall d: nat, s: nat, off: nat | (d, s, off) in sys.geps ensures GepHolds(p, nm[d], nm[s], off) {
      NameMap(sys, sys', h, d);
      NameMap(sys, sys', h, s);
      PullGep(h, q, nm[d], nm[s], off);
    }
    forall d: nat, s: nat | (d, s) in sys.loads ensures LoadHolds(p, nm[d], nm[s]) {
      NameMap(sys, sys', h, d);
      NameMap(sys, sys', h, s);
      PullLoad(h, q, nm[d], nm[s]);
    }
    forall v: nat, a: nat | (v, a) in sys.stores ensures StoreHolds(p, nm[v], nm[a]) {
      NameMap(sys, sys', h, v);
      NameMap(sys, sys', h, a);
      PullStore(h, q, nm[v], nm[a]);
    }
    ClosedIntro(sys, p);
  }

  lemma SelfIncludes(p: Facts, a: Loc)
    ensures Includes(p, a, a)
  {
  }

  lemma PullIn(h: seq<nat>, q: Facts, a: Loc, b: Loc)
    requires (Rho(h, a), Rho(h, b)) in q
    ensures (a, b) in PullBack(h, q)
  {
  }

  // ------------------------------------------------------------ solutions speak of objects only

  ghost function Pure(h: seq<nat>, p: Facts): Facts {
    iset f: (Loc, Loc) | f in p && Dom(h, f.0) && Obj(h, f.1)
  }

  lemma PureIncludes(h: seq<nat>, p: Facts, d: Loc, s: Loc)
    requires Includes(p, d, s) && Dom(h, d)
    ensures Includes(Pure(h, p), d, s)
  {
  }

  lemma PureCloses(sys: System, sys': System, h: seq<nat>, p: Facts)
    requires Setting(sys, sys', h) && Closed(sys, p)
    ensures Closed(sys, Pure(h, p))
  {
    var q, nm := Pure(h, p), sys.start.names;
    PureStarts(sys, sys', h, p);
    assert Alone(h, TOP) && h[TOP] == TOP;
    hide Named, Marked, StateImage, Includes, Alone, Pure, Rho, Dom, Obj, IsQuotient, LoadHolds, StoreHolds, GepHolds;
    forall a: nat, o: nat | (a, o) in sys.addr ensures (nm[a], nm[o]) in q {
      NameMap(sys, sys', h, a);
      ObjName(sys, h, o);
      PureIn(h, p, nm[a], nm[o]);
    }
    forall d: nat, s: nat | (d, s) in sys.copies ensures Includes(q, nm[d], nm[s]) {
      NameMap(sys, sys', h, d);
      PureIncludes(h, p, nm[d], nm[s]);
    }
    forall d: nat, s: nat, off: nat | (d, s, off) in sys.geps ensures GepHolds(q, nm[d], nm[s], off) {
      NameMap(sys, sys', h, d);
      PureGep(h, p, nm[d], nm[s], off);
    }
    forall d: nat, s: nat | (d, s) in sys.loads ensures LoadHolds(q, nm[d], nm[s]) {
      NameMap(sys, sys', h, d);
      PureLoad(h, p, nm[d], nm[s]);
    }
    forall v: nat, a: nat | (v, a) in sys.stores ensures StoreHolds(q, nm[v], nm[a]) {
      PureStore(h, p, nm[v], nm[a]);
    }
    ClosedIntro(sys, q);
  }

  lemma PureIn(h: seq<nat>, p: Facts, a: Loc, b: Loc)
    requires (a, b) in p && Dom(h, a) && Obj(h, b)
    ensures (a, b) in Pure(h, p)
  {
  }

  lemma PureGep(h: seq<nat>, p: Facts, d: Loc, s: Loc, off: nat)
    requires GepHolds(p, d, s, off) && Dom(h, d) && Alone(h, TOP) && h[TOP] == TOP
    ensures GepHolds(Pure(h, p), d, s, off)
  {
    forall l: Loc | (s, l) in Pure(h, p) ensures (d, Access(l, off)) in Pure(h, p) {
      RhoTop(h, l, off);
    }
  }

  lemma PureLoad(h: seq<nat>, p: Facts, d: Loc, s: Loc)
    requires LoadHolds(p, d, s) && Dom(h, d)
    ensures LoadHolds(Pure(h, p), d, s)
  {
    forall l: Loc | (s, l) in Pure(h, p) ensures Includes(Pure(h, p), d, l) {
      PureIncludes(h, p, d, l);
    }
  }

  lemma PureStore(h: seq<nat>, p: Facts, v: Loc, a: Loc)
    requires StoreHolds(p, v, a)
    ensures StoreHolds(Pure(h, p), v, a)
  {
    forall l: Loc | (a, l) in Pure(h, p) ensures Includes(Pure(h, p), l, v) {
      ObjDom(h, l);
      PureIncludes(h, p, l, v);
    }
  }

  lemma PureStarts(sys: System, sys': System, h: seq<nat>, p: Facts)
    requires Setting(sys, sys', h) && Closed(sys, p)
    ensures forall x: nat, o: nat :: x < sys.start.n && o in sys.start.pts[x] ==>
              (sys.start.names[x], sys.start.names[o]) in Pure(h, p)
    ensures forall o: nat, off: nat :: o in sys.start.poisoned ==>
              (Field(sys.start.names[o], off), Base(TOP)) in Pure(h, p)
  {
    forall x: nat, o: nat | x < sys.start.n && o in sys.start.pts[x]
      ensures (sys.start.names[x], sys.start.names[o]) in Pure(h, p)
    {
      NameMap(sys, sys', h, x);
      ObjName(sys, h, o);
    }
    forall o: nat, off: nat | o in sys.start.poisoned
      ensures (Field(sys.start.names[o], off), Base(TOP)) in Pure(h, p)
    {
      ObjName(sys, h, o);
    }
  }

  // ------------------------------------------------------------ from the merged system to the original

  ghost predicate Pushed(h: seq<nat>, p: Facts, a: Loc, b: Loc) {
    exists x: Loc, y: Loc :: (x, y) in Pure(h, p) && Rho(h, x) == a && Rho(h, y) == b
  }

  ghost function PushForward(h: seq<nat>, p: Facts): Facts {
    iset f: (Loc, Loc) | Pushed(h, p, f.0, f.1)
  }

  lemma PushIn(h: seq<nat>, p: Facts, x: Loc, y: Loc)
    requires (x, y) in Pure(h, p)
    ensures (Rho(h, x), Rho(h, y)) in PushForward(h, p)
  {
  }

  /** A fact about a merged node comes from a fact about each node merged into it. */
  lemma PushedAt(sys: System, sys': System, h: seq<nat>, p: Facts, s: nat, b: Loc) returns (y: Loc)
    requires Setting(sys, sys', h) && MergesCycles(sys, h) && Closed(sys, p) && s < sys.start.n
    requires (Rho(h, sys.start.names[s]), b) in PushForward(h, p)
    ensures (sys.start.names[s], y) in Pure(h, p) && Rho(h, y) == b
  {
    var a := sys.start.names[s];
    var x: Loc, z: Loc :| (x, z) in Pure(h, p) && Rho(h, x) == Rho(h, a) && Rho(h, z) == b;
    y := z;
    DomName(sys, h, s);
    PureCloses(sys, sys', h, p);
    hide Setting, Closed, Pure, MergesCycles;
    if a == Base(s) {
      MergedNames(sys, sys', h, p, x, s);
    } else {
      CellAlone(sys, sys', h, s);
      RhoInjective(h, x, a);
    }
  }

  lemma CellAlone(sys: System, sys': System, h: seq<nat>, s: nat)
    requires Setting(sys, sys', h) && s < sys.start.n && sys.start.names[s] != Base(s)
    ensures Obj(h, sys.start.names[s])
  {
    var o: nat, off: nat :| (o, off) in sys.start.cells && sys.start.cells[(o, off)] == s;
    ObjName(sys, h, s);
  }

  lemma MergedNames(sys: System, sys': System, h: seq<nat>, p: Facts, x: Loc, s: nat)
    requires Setting(sys, sys', h) && MergesCycles(sys, h) && Closed(sys, Pure(h, p)) && s < sys.start.n
    requires sys.start.names[s] == Base(s) && Rho(h, x) == Rho(h, Base(s)) && Dom(h, x)
    ensures Includes(Pure(h, p), sys.start.names[s], x)
  {
    assert x.Base? && x.id < |h| && h[x.id] == h[s];
    var j := x.id;
    BaseOrAlone(sys, sys', h, j);
    MergedEqual(sys, h, Pure(h, p), j, s);
  }

  lemma BaseOrAlone(sys: System, sys': System, h: seq<nat>, j: nat)
    requires Setting(sys, sys', h) && j < sys.start.n
    ensures sys.start.names[j] == Base(j) || Alone(h, j)
  {
    if sys.start.names[j] != Base(j) {
      var o: nat, off: nat :| (o, off) in sys.start.cells && sys.start.cells[(o, off)] == j;
    }
  }

  lemma PushIncludes(sys: System, sys': System, h: seq<nat>, p: Facts, d: nat, s: nat)
    requires Setting(sys, sys', h) && MergesCycles(sys, h) && Closed(sys, p) && d < sys.start.n && s < sys.start.n
    requires Includes(p, sys.start.names[d], sys.start.names[s])
    ensures Includes(PushForward(h, p), Rho(h, sys.start.names[d]), Rho(h, sys.start.names[s]))
  {
    var r, nm := PushForward(h, p), sys.start.names;
    forall b: Loc | (Rho(h, nm[s]), b) in r ensures (Rho(h, nm[d]), b) in r {
      var y := PushedAt(sys, sys', h, p, s, b);
      DomName(sys, h, d);
      PushIn(h, p, nm[d], y);
    }
  }

  lemma PushGep(sys: System, sys': System, h: seq<nat>, p: Facts, d: nat, s: nat, off: nat)
    requires Setting(sys, sys', h) && MergesCycles(sys, h) && Closed(sys, p) && d < sys.start.n && s < sys.start.n
    requires GepHolds(p, sys.start.names[d], sys.start.names[s], off)
    ensures GepHolds(PushForward(h, p), Rho(h, sys.start.names[d]), Rho(h, sys.start.names[s]), off)
  {
    var r, nm := PushForward(h, p), sys.start.names;
    forall b: Loc | (Rho(h, nm[s]), b) in r ensures (Rho(h, nm[d]), Access(b, off)) in r {
      var y := PushedAt(sys, sys', h, p, s, b);
      DomName(sys, h, d);
      RhoTop(h, y, off);
      PushIn(h, p, nm[d], Access(y, off));
    }
  }

  /** A fact about an object's renamed name comes from the object itself. */
  lemma PushedOf(h: seq<nat>, p: Facts, o: Loc, b: Loc) returns (y: Loc)
    requires Obj(h, o) && (Rho(h, o), b) in PushForward(h, p)
    ensures (o, y) in Pure(h, p) && Rho(h, y) == b
  {
    var x: Loc, z: Loc :| (x, z) in Pure(h, p) && Rho(h, x) == Rho(h, o) && Rho(h, z) == b;
    RhoInjective(h, x, o);
    y := z;
  }

  lemma PushLoad(sys: System, sys': System, h: seq<nat>, p: Facts, d: nat, s: nat)
    requires Setting(sys, sys', h) && MergesCycles(sys, h) && Closed(sys, p) && d < sys.start.n && s < sys.start.n
    requires LoadHolds(p, sys.start.names[d], sys.start.names[s])
    ensures LoadHolds(PushForward(h, p), Rho(h, sys.start.names[d]), Rho(h, sys.start.names[s]))
  {
    var r, nm := PushForward(h, p), sys.start.names;
    forall b: Loc | (Rho(h, nm[s]), b) in r ensures Includes(r, Rho(h, nm[d]), b) {
      var y := PushedAt(sys, sys', h, p, s, b);
      DomName(sys, h, d);
      forall c: Loc | (b, c) in r ensures (Rho(h, nm[d]), c) in r {
        var z := PushedOf(h, p, y, c);
        PushIn(h, p, nm[d], z);
      }
    }
  }

  lemma PushStore(sys: System, sys': System, h: seq<nat>, p: Facts, v: nat, a: nat)
    requires Setting(sys, sys', h) && MergesCycles(sys, h) && Closed(sys, p) && v < sys.start.n && a < sys.start.n
    requires StoreHolds(p, sys.start.names[v], sys.start.names[a])
    ensures StoreHolds(PushForward(h, p), Rho(h, sys.start.names[v]), Rho(h, sys.start.names[a]))
  {
    var r, nm := PushForward(h, p), sys.start.names;
    forall b: Loc | (Rho(h, nm[a]), b) in r ensures Includes(r, b, Rho(h, nm[v])) {
      var y := PushedAt(sys, sys', h, p, a, b);
      ObjDom(h, y);
      forall c: Loc | (Rho(h, nm[v]), c) in r ensures (b, c) in r {
        var z := PushedAt(sys, sys', h, p, v, c);
        assert Includes(p, y, nm[v]);
        PushIn(h, p, y, z);
      }
    }
  }

  lemma PushStarts(sys: System, sys': System, h: seq<nat>, p: Facts)
    requires Setting(sys, sys', h) && Closed(sys, p)
    ensures forall j: nat, c: nat :: j < sys'.start.n && c in sys'.start.pts[j] ==>
              (sys'.start.names[j], sys'.start.names[c]) in PushForward(h, p)
    ensures forall j: nat, off: nat :: j in sys'.start.poisoned ==>
              (Field(sys'.start.names[j], off), Base(TOP)) in PushForward(h, p)
  {
    PureStarts(sys, sys', h, p);
    var nm := sys.start.names;
    forall j: nat, c: nat | j < sys'.start.n && c in sys'.start.pts[j]
      ensures (sys'.start.names[j], sys'.start.names[c]) in PushForward(h, p)
    {
      assert FactFrom(h, sys.start, j, c);
      var x: nat, o: nat :| x < |sys.start.pts| && x < |h| && h[x] == j && o in sys.start.pts[x] && o < |h| &&
          h[o] == c;
      NameMap(sys, sys', h, x);
      NameMap(sys, sys', h, o);
      PushIn(h, p, nm[x], nm[o]);
    }
    forall j: nat, off: nat | j in sys'.start.poisoned
      ensures (Field(sys'.start.names[j], off), Base(TOP)) in PushForward(h, p)
    {
      var o: nat :| o in sys.start.poisoned && o < |h| && h[o] == j;
      NameMap(sys, sys', h, o);
      PushIn(h, p, Field(nm[o], off), Base(TOP));
    }
  }

  /** Any solution of the original system, renamed, solves the merged one. */
  lemma PushCloses(sys: System, sys': System, h: seq<nat>, p: Facts)
    requires Setting(sys, sys', h) && MergesCycles(sys, h) && Closed(sys, p)
    ensures Closed(sys', PushForward(h, p))
  {
    var r, nm, nm' := PushForward(h, p), sys.start.names, sys'.start.names;
    PushStarts(sys, sys', h, p);
    PureCloses(sys, sys', h, p);
    hide Named, Marked, StateImage, Includes, LoadHolds, StoreHolds, GepHolds, Alone, Pure, Rho, Dom, Obj, MergesCycles,
      PushForward, Pushed, ObjectsAlone;
    forall a: nat, o: nat | (a, o) in sys'.addr ensures (nm'[a], nm'[o]) in r {
      assert PairFrom(h, sys.addr, a, o);
      var x: nat, y: nat :| (x, y) in sys.addr && x < |h| && y < |h| && h[x] == a && h[y] == o;
      NameMap(sys, sys', h, x);
      NameMap(sys, sys', h, y);
      PushIn(h, p, nm[x], nm[y]);
    }
    forall d: nat, s: nat | (d, s) in sys'.copies ensures Includes(r, nm'[d], nm'[s]) {
      assert PairFrom(h, sys.copies, d, s);
      var x: nat, y: nat :| (x, y) in sys.copies && x < |h| && y < |h| && h[x] == d && h[y] == s;
      NameMap(sys, sys', h, x);
      NameMap(sys, sys', h, y);
      PushIncludes(sys, sys', h, p, x, y);
    }
    forall d: nat, s: nat, off: nat | (d, s, off) in sys'.geps ensures GepHolds(r, nm'[d], nm'[s], off) {
      assert GepFrom(h, sys.geps, d, s, off);
      var x: nat, y: nat :| (x, y, off) in sys.geps && x < |h| && y < |h| && h[x] == d && h[y] == s;
      NameMap(sys, sys', h, x);
      NameMap(sys, sys', h, y);
      PushGep(sys, sys', h, p, x, y, off);
    }
    forall d: nat, s: nat | (d, s) in sys'.loads ensures LoadHolds(r, nm'[d], nm'[s]) {
      assert PairFrom(h, sys.loads, d, s);
      var x: nat, y: nat :| (x, y) in sys.loads && x < |h| && y < |h| && h[x] == d && h[y] == s;
      NameMap(sys, sys', h, x);
      NameMap(sys, sys', h, y);
      PushLoad(sys, sys', h, p, x, y);
    }
    forall v: nat, a: nat | (v, a) in sys'.stores ensures StoreHolds(r, nm'[v], nm'[a]) {
      assert PairFrom(h, sys.stores, v, a);
      var x: nat, y: nat :| (x, y) in sys.stores && x < |h| && y < |h| && h[x] == v && h[y] == a;
      NameMap(sys, sys', h, x);
      NameMap(sys, sys', h, y);
      PushStore(sys, sys', h, p, x, y);
    }
    ClosedIntro(sys', r);
  }

  // ------------------------------------------------------------ the theorem

  ghost predicate Merged(sys: System, sys': System, h: seq<nat>, st: State, st': State) {
    && Final(sys, st) && Final(sys', st') && Setting(sys, sys', h) && MergesCycles(sys, h)
  }

  lemma MergedParts(sys: System, sys': System, h: seq<nat>, st: State, st': State)
    requires Merged(sys, sys', h, st, st')
    ensures Final(sys, st) && Final(sys', st') && Setting(sys, sys', h) && MergesCycles(sys, h)
    ensures InBounds(st) && InBounds(st')
  {
    hide Setting, MergesCycles, Solved, Derived;
  }

  /** What maps into `p'` has its image there. */
  lemma PushWithin(h: seq<nat>, p: Facts, p': Facts)
    requires p <= PullBack(h, p') && Pure(h, p) == p
    ensures PushForward(h, p) <= p'
  {
    hide Obj, Dom, Rho;
    forall f | f in PushForward(h, p) ensures f in p' {
      var x: Loc, y: Loc :| (x, y) in Pure(h, p) && Rho(h, x) == f.0 && Rho(h, y) == f.1;
      assert (x, y) in PullBack(h, p');
    }
  }

  lemma PureWithin(h: seq<nat>, p: Facts)
    ensures Pure(h, p) <= p
  {
    hide Obj, Dom;
  }

  /** Solving the merged system gives exactly the renamed facts. */
  lemma QuotientPreserves(sys: System, sys': System, h: seq<nat>, st: State, st': State)
    requires Merged(sys, sys', h, st, st')
    ensures Meaning(st) == Pure(h, Meaning(st)) && Meaning(st') == PushForward(h, Meaning(st))
  {
    hide *;
    MergedParts(sys, sys', h, st, st');
    var p, p' := Meaning(st), Meaning(st');
    LeastSolution(sys, st, Pure(h, p));
    PureCloses(sys, sys', h, p);
    PureWithin(h, p);
    PushCloses(sys, sys', h, p);
    LeastSolution(sys', st', PushForward(h, p));
    LeastSolution(sys, st, PullBack(h, p'));
    PullCloses(sys, sys', h, p');
    PushWithin(h, p, p');
  }

  /** A node's targets after merging are the renamed targets it had, and no two of them coincide. */
  lemma TargetsKept(sys: System, sys': System, h: seq<nat>, st: State, st': State, x: nat, o: nat) returns (o': nat)
    requires Merged(sys, sys', h, st, st') && x < sys.start.n && o in st.pts[x]
    ensures o < st.n && h[x] < st'.n && o' in st'.pts[h[x]] && o' < st'.n && st'.names[o'] == Rho(h, st.names[o])
    ensures Obj(h, st.names[o])
  {
    QuotientPreserves(sys, sys', h, st, st');
    NameMap(sys, sys', h, x);
    FactIn(st, x, o);
    PushIn(h, Meaning(st), st.names[x], st.names[o]);
    hide Meaning, Solved, Derived, Named, Marked;
    o' := FactOfNode(st', h[x], Rho(h, st.names[o]));
  }

  lemma TargetsBack(sys: System, sys': System, h: seq<nat>, st: State, st': State, x: nat, o': nat) returns (o: nat)
    requires Merged(sys, sys', h, st, st') && x < sys.start.n && h[x] < st'.n && o' in st'.pts[h[x]]
    ensures o' < st'.n && o in st.pts[x] && o < st.n && st'.names[o'] == Rho(h, st.names[o])
  {
    QuotientPreserves(sys, sys', h, st, st');
    NameMap(sys, sys', h, x);
    FactIn(st', h[x], o');
    LeastSolution(sys, st, Meaning(st));
    assert st'.names[h[x]] == Rho(h, sys.start.names[x]);
    var y := PushedAt(sys, sys', h, Meaning(st), x, st'.names[o']);
    hide Meaning, Solved, Derived, Named, Marked;
    o := FactOfNode(st, x, y);
  }

  /** Every single-target answer survives the merging, and no new one appears. */
  lemma SingletonsSurvive(sys: System, sys': System, h: seq<nat>, st: State, st': State, x: nat)
    requires Merged(sys, sys', h, st, st') && x < sys.start.n
    ensures x < |h| && x < |st.pts| && h[x] < |st'.pts|
    ensures (exists o: nat :: st.pts[x] == {o}) <==> (exists o': nat :: st'.pts[h[x]] == {o'})
    ensures forall o: nat :: st.pts[x] == {o} ==>
              exists o': nat :: st'.pts[h[x]] == {o'} && o < st.n && o' < st'.n && st'.names[o'] == Rho(h, st.names[o])
  {
    NameMap(sys, sys', h, x);
    assert h[x] < st'.n;
    hide Meaning, Solved, Derived, Marked;
    forall o: nat | st.pts[x] == {o}
      ensures exists o': nat :: st'.pts[h[x]] == {o'} && o < st.n && o' < st'.n && st'.names[o'] == Rho(h, st.names[o])
    {
      SingleForward(sys, sys', h, st, st', x, o);
    }
    forall o': nat | st'.pts[h[x]] == {o'} ensures exists o: nat :: st.pts[x] == {o} {
      SingleBack(sys, sys', h, st, st', x, o');
    }
  }

  lemma SingleForward(sys: System, sys': System, h: seq<nat>, st: State, st': State, x: nat, o: nat)
    requires Merged(sys, sys', h, st, st') && x < sys.start.n && h[x] < st'.n && st.pts[x] == {o}
    ensures exists o': nat :: st'.pts[h[x]] == {o'} && o < st.n && o' < st'.n && st'.names[o'] == Rho(h, st.names[o])
  {
    assert o in st.pts[x];
    var o' := TargetsKept(sys, sys', h, st, st', x, o);
    forall c | c in st'.pts[h[x]] ensures c == o' {
      var back := TargetsBack(sys, sys', h, st, st', x, c);
      assert back == o;
      hide Final, Setting, Rho;
      FinalGood(sys', st');
      SameNode(st', c, o');
    }
    assert st'.pts[h[x]] == {o'};
  }

  lemma SingleBack(sys: System, sys': System, h: seq<nat>, st: State, st': State, x: nat, o': nat)
    requires Merged(sys, sys', h, st, st') && x < sys.start.n && h[x] < st'.n && st'.pts[h[x]] == {o'}
    ensures exists o: nat :: st.pts[x] == {o}
  {
    assert o' in st'.pts[h[x]];
    var o := TargetsBack(sys, sys', h, st, st', x, o');
    var _ := TargetsKept(sys, sys', h, st, st', x, o);
    forall c | c in st.pts[x] ensures c == o {
      var there := TargetsKept(sys, sys', h, st, st', x, c);
      assert there == o';
      ObjDom(h, st.names[c]);
      RhoInjective(h, st.names[c], st.names[o]);
      FinalGood(sys, st);
      SameNode(st, c, o);
    }
    assert st.pts[x] == {o};
  }

  lemma FinalGood(sys: System, st: State)
    requires Final(sys, st)
    ensures Good(st)
  {
  }
}
