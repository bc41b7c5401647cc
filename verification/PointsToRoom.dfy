/**
 When solving meets no cap: a solution with few targets everywhere and few cells leaves room
 (crates/absint/src/pointsto.rs:21-42, 105-130, 266-349).
 */
module PointsToRoom {
  import opened Wrappers
  import opened PointsToRules
  import opened PointsToSteps

  // ------------------------------------------------------------ small solutions

  /** Nothing points to more than 64 things. */
  ghost predicate Slim(p: Facts) {
    forall a: Loc :: SlimAt(p, a)
  }

  ghost predicate SlimAt(p: Facts, a: Loc) {
    exists ts: set<Loc> :: |ts| <= 64 && TargetsIn(p, a, ts)
  }

  ghost predicate TargetsIn(p: Facts, a: Loc, ts: set<Loc>) {
    forall b: Loc :: (a, b) in p ==> b in ts
  }

  /** The fields that are reached in the solution, other than objects themselves. */
  ghost predicate FieldsIn(sys: System, p: Facts, cells: set<Loc>)
    requires Scoped(sys, sys.start.n) && Good(sys.start)
  {
    forall d: nat, s: nat, off: nat, l: Loc :: (d, s, off) in sys.geps && (sys.start.names[s], l) in p ==>
      l == Base(TOP) || off == 0 || Field(l, off) in cells
  }

  /** A solution with at most 64 targets everywhere, and so few cells that the node budget is not reached. */
  ghost predicate Ample(sys: System, p: Facts, cells: set<Loc>) {
    && Scoped(sys, sys.start.n) && Good(sys.start) && Closed(sys, p) && NoAnyOffset(sys)
    && sys.start.saturated == {} && Slim(p) && FieldsIn(sys, p, cells) && sys.start.n + |cells| < 10_000_000
  }

  /** A set that grows never has more than 64 members afterwards. */
  lemma GrowthCapped(st: State, dst: nat, extra: set<nat>)
    requires dst < |st.pts|
    ensures Widen(st, dst, extra).pts[dst] == st.pts[dst] || |Widen(st, dst, extra).pts[dst]| <= 64
  {
  }

  // ------------------------------------------------------------ what every step keeps

  ghost predicate EdgesBelow(p: Facts, st: State, ct: Edges) {
    forall s: nat, d: nat :: d in Targets(ct, s) ==> EdgeBelow(p, st, s, d)
  }

  ghost predicate EdgeBelow(p: Facts, st: State, s: nat, d: nat) {
    s < |st.names| && d < |st.names| && Includes(p, st.names[d], st.names[s])
  }

  ghost predicate CellsBelow(sys: System, st: State, cells: set<Loc>) {
    forall x: nat :: sys.start.n <= x < |st.names| ==> st.names[x] in cells
  }

  ghost predicate Roomy(sys: System, p: Facts, cells: set<Loc>, w: Work) {
    && Good(w.st) && w.st.saturated == {} && w.st.poisoned == sys.start.poisoned
    && sys.start.names <= w.st.names && Below(w.st, p)
    && EdgesBelow(p, w.st, w.ct) && CellsBelow(sys, w.st, cells)
  }

  lemma {:induction false} NamesCount(st: State, s: set<nat>, ts: set<Loc>)
    requires Good(st) && forall x: nat :: x in s ==> x < |st.names| && st.names[x] in ts
    ensures |s| <= |ts|
    decreases s
  {
    if s != {} {
      var x :| x in s;
      hide Marked;
      forall y: nat | y in s - {x} ensures y < |st.names| && st.names[y] in ts - {st.names[x]} {
        assert x < y || y < x;
      }
      NamesCount(st, s - {x}, ts - {st.names[x]});
    }
  }

  /** A set of nodes the solution allows at one place has at most 64 members. */
  lemma FewTargets(st: State, p: Facts, a: Loc, s: set<nat>)
    requires Good(st) && Slim(p) && forall x: nat :: x in s ==> x < |st.names| && (a, st.names[x]) in p
    ensures |s| <= 64
  {
    hide Good;
    assert SlimAt(p, a);
    var ts: set<Loc> :| |ts| <= 64 && TargetsIn(p, a, ts);
    NamesCount(st, s, ts);
  }

  lemma RoomyParts(sys: System, p: Facts, cells: set<Loc>, w: Work)
    requires Roomy(sys, p, cells, w)
    ensures Good(w.st) && w.st.saturated == {} && w.st.poisoned == sys.start.poisoned && sys.start.names <= w.st.names
    ensures InBounds(w.st) && Below(w.st, p) && EdgesBelow(p, w.st, w.ct) && CellsBelow(sys, w.st, cells)
    ensures |w.st.pts| == |w.st.names| == w.st.n
  {
    hide PointsToRules.Named, Marked, Below, EdgesBelow, CellsBelow;
  }

  lemma RoomyIntro(sys: System, p: Facts, cells: set<Loc>, w: Work)
    requires Good(w.st) && w.st.saturated == {} && w.st.poisoned == sys.start.poisoned && sys.start.names <= w.st.names
    requires InBounds(w.st) && Below(w.st, p) && EdgesBelow(p, w.st, w.ct) && CellsBelow(sys, w.st, cells)
    ensures Roomy(sys, p, cells, w)
  {
    hide PointsToRules.Named, Marked, Below, EdgesBelow, CellsBelow;
  }

  /** A set that stays small is not saturated. */
  lemma WidenBelow(st: State, p: Facts, dst: nat, extra: set<nat>)
    requires dst < |st.pts| && InBounds(st) && InBounds(Widen(st, dst, extra)) && Below(st, p) && st.saturated == {}
    requires forall o: nat :: o in extra ==> o < |st.names| && (st.names[dst], st.names[o]) in p
    requires |st.pts[dst] + extra| <= 64
    ensures var t := Widen(st, dst, extra);
            Below(t, p) && t.saturated == {} && t.names == st.names && t.poisoned == st.poisoned && t.n == st.n
  {
  }

  lemma GrowRoomy(sys: System, p: Facts, cells: set<Loc>, w: Work, dst: nat, extra: set<nat>)
    requires Ample(sys, p, cells) && Roomy(sys, p, cells, w) && dst < |w.st.names|
    requires forall o: nat :: o in extra ==> o < |w.st.names| && (w.st.names[dst], w.st.names[o]) in p
    ensures var v := Grow(w, dst, extra); Roomy(sys, p, cells, v) && v.st.names == w.st.names
  {
    var st := w.st;
    assert Slim(p);
    RoomyParts(sys, p, cells, w);
    RoomySize(sys, p, cells, w);
    hide Ample, Roomy, Slim, Good, Widen, EdgesBelow, CellsBelow;
    WidenGood(st, dst, extra);
    FewTargets(st, p, st.names[dst], st.pts[dst] + extra);
    GoodBounds(Widen(st, dst, extra));
    WidenBelow(st, p, dst, extra);
    hide Below, InBounds;
    var v := Grow(w, dst, extra);
    assert v.st == Widen(st, dst, extra) && v.ct == w.ct;
    SameNames(sys, p, cells, w, v);
    RoomyIntro(sys, p, cells, v);
  }

  lemma GoodBounds(st: State)
    requires Good(st)
    ensures InBounds(st)
  {
  }

  lemma SameNames(sys: System, p: Facts, cells: set<Loc>, w: Work, v: Work)
    requires EdgesBelow(p, w.st, w.ct) && CellsBelow(sys, w.st, cells) && v.st.names == w.st.names && v.ct == w.ct
    ensures EdgesBelow(p, v.st, v.ct) && CellsBelow(sys, v.st, cells)
  {
    MoreNames(p, w.st, v.st, w.ct);
  }

  lemma FlowRoomy(sys: System, p: Facts, cells: set<Loc>, w: Work, dst: nat, src: nat)
    requires Ample(sys, p, cells) && Roomy(sys, p, cells, w) && dst < |w.st.names| && src < |w.st.names|
    requires Includes(p, w.st.names[dst], w.st.names[src])
    ensures var v := FlowTo(w, dst, src); Roomy(sys, p, cells, v) && v.st.names == w.st.names
  {
    RoomySize(sys, p, cells, w);
    hide Ample, Roomy, Grow;
    GrowRoomy(sys, p, cells, w, dst, w.st.pts[src]);
  }

  lemma RoomySize(sys: System, p: Facts, cells: set<Loc>, w: Work)
    requires Roomy(sys, p, cells, w)
    ensures |w.st.pts| == |w.st.names| == w.st.n && sys.start.names <= w.st.names && Good(w.st)
    ensures forall x: nat, o: nat :: x < w.st.n && o in w.st.pts[x] ==>
              o < w.st.n && (w.st.names[x], w.st.names[o]) in p
  {
  }

  /** The new nodes are cells of the solution, so the budget is not reached. */
  lemma BelowBudget(sys: System, p: Facts, cells: set<Loc>, w: Work)
    requires Ample(sys, p, cells) && Roomy(sys, p, cells, w)
    ensures w.st.n <= sys.start.n + |cells| < MAX_NODES
  {
    assert |sys.start.names| == sys.start.n && |w.st.names| == w.st.n;
    BetweenCount(sys.start.n, w.st.n);
    hide Ample, Good;
    NamesCount(w.st, Between(sys.start.n, w.st.n), cells);
  }

  ghost function Between(a: nat, b: nat): set<nat>
    requires a <= b
    decreases b - a
  {
    if a == b then {} else {a} + Between(a + 1, b)
  }

  lemma {:induction false} BetweenCount(a: nat, b: nat)
    requires a <= b
    ensures |Between(a, b)| == b - a && forall x: nat :: x in Between(a, b) <==> a <= x < b
    decreases b - a
  {
    if a < b {
      BetweenCount(a + 1, b);
    }
  }

  /** A field that has its node, or needs none. */
  lemma OldField(sys: System, p: Facts, cells: set<Loc>, w: Work, o: nat, off: nat)
    requires Ample(sys, p, cells) && Roomy(sys, p, cells, w) && o < w.st.n && off != ANY_OFFSET
    requires FieldNode(w.st, o, off).Some?
    ensures Interned(w.st, o, off) == w.st && FieldNode(w.st, o, off).value < w.st.n
    ensures w.st.names[FieldNode(w.st, o, off).value] == Access(w.st.names[o], off)
  {
    BelowBudget(sys, p, cells, w);
    FieldName(w.st, o, off);
  }

  lemma TopName(st: State, o: nat)
    requires Good(st) && o < st.n
    ensures st.names[o] == Base(TOP) <==> o == TOP
  {
    if st.names[o] == Base(TOP) {
      SameNode(st, o, TOP);
    }
  }

  /** A new cell is one of the solution's. */
  lemma NewField(sys: System, p: Facts, cells: set<Loc>, w: Work, o: nat, off: nat)
    requires Ample(sys, p, cells) && Roomy(sys, p, cells, w) && o < w.st.n && off != ANY_OFFSET
    requires FieldNode(w.st, o, off).None? && o < |w.st.names| && Field(w.st.names[o], off) in cells
    ensures var st := Interned(w.st, o, off);
            && Roomy(sys, p, cells, w.(st := st)) && st == NewCell(w.st, o, off) && st.n == w.st.n + 1
            && w.st.names <= st.names && |st.names| == st.n
            && FieldNode(st, o, off) == Some(w.st.n) && st.names[w.st.n] == Access(w.st.names[o], off)
  {
    RoomyParts(sys, p, cells, w);
    TopName(w.st, o);
    NewCellGood(w.st, o, off);
    var st := NewCell(w.st, o, off);
    if o in w.st.poisoned {
      PoisonInSolution(sys, p, cells, w, o, off);
    }
    hide Ample, Roomy;
    CellBelow(p, w.st, o, off);
    hide Good, InBounds, Below, EdgesBelow, CellsBelow;
    CellNames(sys, p, cells, w, o, off);
    RoomyIntro(sys, p, cells, w.(st := st));
  }

  lemma CellNames(sys: System, p: Facts, cells: set<Loc>, w: Work, o: nat, off: nat)
    requires o < |w.st.names| && Field(w.st.names[o], off) in cells
    requires EdgesBelow(p, w.st, w.ct) && CellsBelow(sys, w.st, cells)
    ensures EdgesBelow(p, NewCell(w.st, o, off), w.ct) && CellsBelow(sys, NewCell(w.st, o, off), cells)
  {
    MoreNames(p, w.st, NewCell(w.st, o, off), w.ct);
  }

  lemma MoreNames(p: Facts, st: State, t: State, ct: Edges)
    requires EdgesBelow(p, st, ct) && st.names <= t.names
    ensures EdgesBelow(p, t, ct)
  {
    forall s: nat, d: nat | d in Targets(ct, s) ensures EdgeBelow(p, t, s, d) {
      assert EdgeBelow(p, st, s, d);
      assert st.names[d] == t.names[d] && st.names[s] == t.names[s];
    }
  }

  /** The new cell starts with what the solution has for it. */
  lemma CellBelow(p: Facts, st: State, o: nat, off: nat)
    requires InBounds(st) && o < st.n && InBounds(NewCell(st, o, off)) && Below(st, p)
    requires o in st.poisoned ==> (Field(st.names[o], off), Base(TOP)) in p && st.names[TOP] == Base(TOP)
    ensures Below(NewCell(st, o, off), p)
  {
  }

  lemma PoisonInSolution(sys: System, p: Facts, cells: set<Loc>, w: Work, o: nat, off: nat)
    requires Ample(sys, p, cells) && Roomy(sys, p, cells, w) && o < w.st.n && o in w.st.poisoned
    ensures (Field(w.st.names[o], off), Base(TOP)) in p && w.st.names[TOP] == Base(TOP)
  {
    assert o < sys.start.n && sys.start.names[o] == w.st.names[o];
  }

  lemma TakeRoomy(sys: System, p: Facts, cells: set<Loc>, w: Work, dst: nat, off: nat, o: nat)
    requires Ample(sys, p, cells) && Roomy(sys, p, cells, w) && o < |w.st.names| && dst < |w.st.names|
    requires off != ANY_OFFSET && (w.st.names[dst], Access(w.st.names[o], off)) in p
    requires w.st.names[o] == Base(TOP) || off == 0 || Field(w.st.names[o], off) in cells
    ensures var v := TakeField(w, dst, off, o); Roomy(sys, p, cells, v) && w.st.names <= v.st.names
  {
    RoomySize(sys, p, cells, w);
    if FieldNode(w.st, o, off).Some? {
      OldField(sys, p, cells, w, o, off);
      hide Ample, Roomy, Good, Grow;
      GrowRoomy(sys, p, cells, w, dst, {FieldNode(w.st, o, off).value});
    } else {
      TopName(w.st, o);
      NewField(sys, p, cells, w, o, off);
      hide Ample, Roomy, Good, Grow, FieldNode, Interned;
      var v := w.(st := Interned(w.st, o, off));
      GrowRoomy(sys, p, cells, v, dst, {w.st.n});
    }
  }

  lemma EdgeRoomy(sys: System, p: Facts, cells: set<Loc>, w: Work, src: nat, dst: nat)
    requires Roomy(sys, p, cells, w) && src < |w.st.names| && dst < |w.st.names|
    requires Includes(p, w.st.names[dst], w.st.names[src])
    ensures Roomy(sys, p, cells, w.(ct := WithEdge(w.ct, src, dst)))
  {
    RoomyParts(sys, p, cells, w);
    hide Roomy, Good, Below, CellsBelow;
    OneEdge(p, w.st, w.ct, src, dst);
    RoomyIntro(sys, p, cells, w.(ct := WithEdge(w.ct, src, dst)));
  }

  lemma OneEdge(p: Facts, st: State, ct: Edges, src: nat, dst: nat)
    requires EdgesBelow(p, st, ct) && src < |st.names| && dst < |st.names| && Includes(p, st.names[dst], st.names[src])
    ensures EdgesBelow(p, st, WithEdge(ct, src, dst))
  {
  }

  lemma LinkRoomy(sys: System, p: Facts, cells: set<Loc>, w: Work, src: nat, dst: nat)
    requires Ample(sys, p, cells) && Roomy(sys, p, cells, w) && src < |w.st.names| && dst < |w.st.names|
    requires Includes(p, w.st.names[dst], w.st.names[src])
    ensures var v := LinkTo(w, src, dst); Roomy(sys, p, cells, v) && v.st.names == w.st.names
  {
    hide Ample, Roomy, FlowTo;
    EdgeRoomy(sys, p, cells, w, src, dst);
    FlowRoomy(sys, p, cells, w.(ct := WithEdge(w.ct, src, dst)), dst, src);
  }

  // ------------------------------------------------------------ the phases of a visit

  /** The objects are targets the solution has for the node. */
  ghost predicate TargetsOf(p: Facts, names: seq<Loc>, node: nat, objs: seq<nat>) {
    node < |names| && forall i: nat :: i < |objs| ==> objs[i] < |names| && (names[node], names[objs[i]]) in p
  }

  /** Work that keeps the invariant and has grown from `w`. */
  ghost predicate Goes(sys: System, p: Facts, cells: set<Loc>, w: Work, v: Work) {
    Roomy(sys, p, cells, v) && w.st.names <= v.st.names
  }

  lemma {:induction false} FieldsRoomy(sys: System, p: Facts, cells: set<Loc>, w: Work, node: nat, dst: nat, off: nat,
                                       objs: seq<nat>)
    requires Ample(sys, p, cells) && Roomy(sys, p, cells, w) && (dst, node, off) in sys.geps
    requires TargetsOf(p, w.st.names, node, objs)
    ensures Goes(sys, p, cells, w, Fields(w, dst, off, objs))
  {
    hide Ample, Roomy, TakeField, Access;
    if objs != [] {
      var k := |objs| - 1;
      FieldsRoomy(sys, p, cells, w, node, dst, off, objs[..k]);
      var v := Fields(w, dst, off, objs[..k]);
      GepFits(sys, p, cells, v, node, dst, off, objs[k]);
      TakeRoomy(sys, p, cells, v, dst, off, objs[k]);
    }
  }

  lemma GepFits(sys: System, p: Facts, cells: set<Loc>, v: Work, node: nat, dst: nat, off: nat, o: nat)
    requires Ample(sys, p, cells) && Roomy(sys, p, cells, v) && (dst, node, off) in sys.geps
    requires node < |v.st.names| && o < |v.st.names| && (v.st.names[node], v.st.names[o]) in p
    ensures dst < |v.st.names| && off != ANY_OFFSET && (v.st.names[dst], Access(v.st.names[o], off)) in p
    ensures v.st.names[o] == Base(TOP) || off == 0 || Field(v.st.names[o], off) in cells
  {
    assert node < sys.start.n && dst < sys.start.n;
    assert sys.start.names[node] == v.st.names[node] && sys.start.names[dst] == v.st.names[dst];
    assert GepHolds(p, sys.start.names[dst], sys.start.names[node], off);
    hide Good, Slim;
  }

  ghost predicate GepsListed(sys: System, node: nat, edges: seq<(nat, nat)>) {
    forall i: nat :: i < |edges| ==> (edges[i].0, node, edges[i].1) in sys.geps
  }

  lemma {:induction false} AllFieldsRoomy(sys: System, p: Facts, cells: set<Loc>, w: Work, node: nat,
                                          edges: seq<(nat, nat)>, objs: seq<nat>)
    requires Ample(sys, p, cells) && Roomy(sys, p, cells, w) && GepsListed(sys, node, edges)
    requires TargetsOf(p, w.st.names, node, objs)
    ensures Goes(sys, p, cells, w, AllFields(w, edges, objs))
  {
    hide Ample, Roomy, Fields;
    if edges != [] {
      var k := |edges| - 1;
      AllFieldsRoomy(sys, p, cells, w, node, edges[..k], objs);
      FieldsRoomy(sys, p, cells, AllFields(w, edges[..k], objs), node, edges[k].0, edges[k].1, objs);
    }
  }

  ghost predicate PairsListed(list: seq<(nat, nat)>, node: nat, ends: seq<nat>) {
    forall i: nat :: i < |ends| ==> (ends[i], node) in list
  }

  lemma {:induction false} LoadsRoomy(sys: System, p: Facts, cells: set<Loc>, w: Work, node: nat, dst: nat,
                                      objs: seq<nat>)
    requires Ample(sys, p, cells) && Roomy(sys, p, cells, w) && (dst, node) in sys.loads
    requires TargetsOf(p, w.st.names, node, objs)
    ensures Goes(sys, p, cells, w, Loads(w, dst, objs))
  {
    if objs != [] {
      var k := |objs| - 1;
      LoadsRoomy(sys, p, cells, w, node, dst, objs[..k]);
      var v := Loads(w, dst, objs[..k]);
      LoadFits(sys, p, cells, v, node, dst, objs[k]);
      hide Ample, Roomy, LinkTo, Includes;
      LinkRoomy(sys, p, cells, v, objs[k], dst);
    }
  }

  lemma LoadFits(sys: System, p: Facts, cells: set<Loc>, v: Work, node: nat, dst: nat, o: nat)
    requires Ample(sys, p, cells) && Roomy(sys, p, cells, v) && (dst, node) in sys.loads
    requires node < |v.st.names| && o < |v.st.names| && (v.st.names[node], v.st.names[o]) in p
    ensures dst < |v.st.names| && Includes(p, v.st.names[dst], v.st.names[o])
  {
    assert node < sys.start.n && dst < sys.start.n;
    assert sys.start.names[node] == v.st.names[node] && sys.start.names[dst] == v.st.names[dst];
    assert LoadHolds(p, sys.start.names[dst], sys.start.names[node]);
    hide Good, Slim, Includes;
  }

  lemma {:induction false} AllLoadsRoomy(sys: System, p: Facts, cells: set<Loc>, w: Work, node: nat, dsts: seq<nat>,
                                         objs: seq<nat>)
    requires Ample(sys, p, cells) && Roomy(sys, p, cells, w) && PairsListed(sys.loads, node, dsts)
    requires TargetsOf(p, w.st.names, node, objs)
    ensures Goes(sys, p, cells, w, AllLoads(w, dsts, objs))
  {
    hide Ample, Roomy, Loads;
    if dsts != [] {
      var k := |dsts| - 1;
      AllLoadsRoomy(sys, p, cells, w, node, dsts[..k], objs);
      LoadsRoomy(sys, p, cells, AllLoads(w, dsts[..k], objs), node, dsts[k], objs);
    }
  }

  lemma {:induction false} StoresRoomy(sys: System, p: Facts, cells: set<Loc>, w: Work, node: nat, value: nat,
                                       objs: seq<nat>)
    requires Ample(sys, p, cells) && Roomy(sys, p, cells, w) && (value, node) in sys.stores
    requires TargetsOf(p, w.st.names, node, objs)
    ensures Goes(sys, p, cells, w, Stores(w, value, objs))
  {
    if objs != [] {
      var k := |objs| - 1;
      StoresRoomy(sys, p, cells, w, node, value, objs[..k]);
      var v := Stores(w, value, objs[..k]);
      StoreFits(sys, p, cells, v, node, value, objs[k]);
      hide Ample, Roomy, LinkTo, Includes;
      LinkRoomy(sys, p, cells, v, value, objs[k]);
    }
  }

  lemma StoreFits(sys: System, p: Facts, cells: set<Loc>, v: Work, node: nat, value: nat, o: nat)
    requires Ample(sys, p, cells) && Roomy(sys, p, cells, v) && (value, node) in sys.stores
    requires node < |v.st.names| && o < |v.st.names| && (v.st.names[node], v.st.names[o]) in p
    ensures value < |v.st.names| && Includes(p, v.st.names[o], v.st.names[value])
  {
    assert node < sys.start.n && value < sys.start.n;
    assert sys.start.names[node] == v.st.names[node] && sys.start.names[value] == v.st.names[value];
    assert StoreHolds(p, sys.start.names[value], sys.start.names[node]);
    hide Good, Slim, Includes;
  }

  lemma {:induction false} AllStoresRoomy(sys: System, p: Facts, cells: set<Loc>, w: Work, node: nat, values: seq<nat>,
                                          objs: seq<nat>)
    requires Ample(sys, p, cells) && Roomy(sys, p, cells, w) && PairsListed(sys.stores, node, values)
    requires TargetsOf(p, w.st.names, node, objs)
    ensures Goes(sys, p, cells, w, AllStores(w, values, objs))
  {
    hide Ample, Roomy, Stores;
    if values != [] {
      var k := |values| - 1;
      AllStoresRoomy(sys, p, cells, w, node, values[..k], objs);
      StoresRoomy(sys, p, cells, AllStores(w, values[..k], objs), node, values[k], objs);
    }
  }

  /** The nodes include what `node` has. */
  ghost predicate CopiesOf(p: Facts, names: seq<Loc>, node: nat, dsts: seq<nat>) {
    node < |names| && forall i: nat :: i < |dsts| ==> dsts[i] < |names| && Includes(p, names[dsts[i]], names[node])
  }

  lemma {:induction false} CopiesRoomy(sys: System, p: Facts, cells: set<Loc>, w: Work, node: nat, dsts: seq<nat>)
    requires Ample(sys, p, cells) && Roomy(sys, p, cells, w) && CopiesOf(p, w.st.names, node, dsts)
    ensures Goes(sys, p, cells, w, Copies(w, node, dsts))
  {
    hide Ample, Roomy, FlowTo, Includes;
    if dsts != [] {
      var k := |dsts| - 1;
      CopiesRoomy(sys, p, cells, w, node, dsts[..k]);
      FlowRoomy(sys, p, cells, Copies(w, node, dsts[..k]), dsts[k], node);
    }
  }

  // ------------------------------------------------------------ visits and runs

  lemma {:induction false} GepTableLists(list: seq<(nat, nat, nat)>, s: nat, d: nat, off: nat)
    requires (d, off) in Entries(GepTable(list), s)
    ensures (d, s, off) in list
  {
    if list != [] {
      var k := |list| - 1;
      if (d, off) in Entries(GepTable(list[..k]), s) {
        GepTableLists(list[..k], s, d, off);
      } else {
        assert list[k] == (d, s, off);
      }
    }
  }

  lemma {:induction false} PairTableLists(list: seq<(nat, nat)>, s: nat, d: nat)
    requires d in Entries(PairTable(list), s)
    ensures (d, s) in list
  {
    if list != [] {
      var k := |list| - 1;
      if d in Entries(PairTable(list[..k]), s) {
        PairTableLists(list[..k], s, d);
      } else {
        assert list[k] == (d, s);
      }
    }
  }

  lemma {:induction false} EdgeTableLists(list: seq<(nat, nat)>, s: nat, d: nat)
    requires d in Targets(EdgeTable(list), s)
    ensures (d, s) in list
  {
    if list != [] {
      var k := |list| - 1;
      if d in Targets(EdgeTable(list[..k]), s) {
        EdgeTableLists(list[..k], s, d);
      } else {
        assert list[k] == (d, s);
      }
    }
  }

  lemma TablesListed(sys: System, node: nat)
    ensures GepsListed(sys, node, Entries(TablesOf(sys).gepTo, node))
    ensures PairsListed(sys.loads, node, Entries(TablesOf(sys).loadTo, node))
    ensures PairsListed(sys.stores, node, Entries(TablesOf(sys).storeFrom, node))
  {
    var tb := TablesOf(sys);
    hide GepTable, PairTable;
    forall i: nat | i < |Entries(tb.gepTo, node)|
      ensures (Entries(tb.gepTo, node)[i].0, node, Entries(tb.gepTo, node)[i].1) in sys.geps
    {
      GepTableLists(sys.geps, node, Entries(tb.gepTo, node)[i].0, Entries(tb.gepTo, node)[i].1);
    }
    forall i: nat | i < |Entries(tb.loadTo, node)| ensures (Entries(tb.loadTo, node)[i], node) in sys.loads {
      PairTableLists(sys.loads, node, Entries(tb.loadTo, node)[i]);
    }
    forall i: nat | i < |Entries(tb.storeFrom, node)| ensures (Entries(tb.storeFrom, node)[i], node) in sys.stores {
      PairTableLists(sys.stores, node, Entries(tb.storeFrom, node)[i]);
    }
  }

  lemma LaterTargets(p: Facts, names: seq<Loc>, names': seq<Loc>, node: nat, objs: seq<nat>)
    requires TargetsOf(p, names, node, objs) && names <= names'
    ensures TargetsOf(p, names', node, objs)
  {
  }

  lemma TriggersRoomy(sys: System, p: Facts, cells: set<Loc>, w: Work, node: nat, objs: seq<nat>)
    requires Ample(sys, p, cells) && Roomy(sys, p, cells, w) && TargetsOf(p, w.st.names, node, objs)
    ensures Goes(sys, p, cells, w, Triggers(TablesOf(sys), w, node, objs))
  {
    var tb := TablesOf(sys);
    TablesListed(sys, node);
    hide Ample, Roomy, TablesOf, AllFields, AllLoads, AllStores, TargetsOf, GepsListed, PairsListed;
    AllFieldsRoomy(sys, p, cells, w, node, Entries(tb.gepTo, node), objs);
    var w1 := AllFields(w, Entries(tb.gepTo, node), objs);
    LaterTargets(p, w.st.names, w1.st.names, node, objs);
    AllLoadsRoomy(sys, p, cells, w1, node, Entries(tb.loadTo, node), objs);
    var w2 := AllLoads(w1, Entries(tb.loadTo, node), objs);
    LaterTargets(p, w1.st.names, w2.st.names, node, objs);
    AllStoresRoomy(sys, p, cells, w2, node, Entries(tb.storeFrom, node), objs);
  }

  lemma VisitRoomy(sys: System, p: Facts, cells: set<Loc>, w: Work, v: Work, node: nat)
    requires Ample(sys, p, cells) && Roomy(sys, p, cells, w) && Visited(TablesOf(sys), w, v, node)
    ensures Roomy(sys, p, cells, v)
  {
    RoomySize(sys, p, cells, w);
    hide Ample, TablesOf, Triggers, Copies, Good;
    var objs: seq<nat>, dsts: seq<nat> :| Visits(TablesOf(sys), w, v, node, objs, dsts);
    forall i: nat | i < |objs| ensures objs[i] < |w.st.names| && (w.st.names[node], w.st.names[objs[i]]) in p {
      assert objs[i] in objs;
    }
    TriggersRoomy(sys, p, cells, w, node, objs);
    var u := Triggers(TablesOf(sys), w, node, objs);
    EdgesOut(sys, p, cells, u, node, dsts);
    hide Roomy;
    CopiesRoomy(sys, p, cells, u, node, dsts);
  }

  lemma EdgesOut(sys: System, p: Facts, cells: set<Loc>, u: Work, node: nat, dsts: seq<nat>)
    requires Roomy(sys, p, cells, u) && node < |u.st.names| && IsListing(dsts, Targets(u.ct, node))
    ensures CopiesOf(p, u.st.names, node, dsts)
  {
    RoomyParts(sys, p, cells, u);
    hide Roomy, Good, Below, Includes;
    forall i: nat | i < |dsts| ensures EdgeBelow(p, u.st, node, dsts[i]) {
      assert dsts[i] in dsts;
    }
  }

  lemma PoppedRoomy(sys: System, p: Facts, cells: set<Loc>, w: Work)
    requires Roomy(sys, p, cells, w) && w.q.work != []
    ensures Roomy(sys, p, cells, Popped(w))
  {
  }

  lemma {:induction false} TurnsRoomy(sys: System, p: Facts, cells: set<Loc>, w: Work, v: Work, k: nat)
    requires Ample(sys, p, cells) && Roomy(sys, p, cells, w) && Turns(TablesOf(sys), w, v, k)
    ensures Roomy(sys, p, cells, v)
    decreases k
  {
    hide Ample, Roomy, TablesOf, Visited, Popped;
    if k > 0 {
      var mid :| Turns(TablesOf(sys), w, mid, k - 1) && Turn(TablesOf(sys), mid, v);
      TurnsRoomy(sys, p, cells, w, mid, k - 1);
      PoppedRoomy(sys, p, cells, mid);
      VisitRoomy(sys, p, cells, Popped(mid), v, mid.q.work[|mid.q.work| - 1]);
    }
  }

  // ------------------------------------------------------------ the start of a run

  lemma StartRoomy(sys: System, p: Facts, cells: set<Loc>, q: Queue)
    requires Ample(sys, p, cells)
    ensures Roomy(sys, p, cells, Work(sys.start, EdgeTable(sys.copies), q))
  {
    var ct := EdgeTable(sys.copies);
    GoodBounds(sys.start);
    StartBelow(sys, p, cells);
    hide EdgeTable, Ample, Good, Includes, Below;
    forall s: nat, d: nat | d in Targets(ct, s) ensures EdgeBelow(p, sys.start, s, d) {
      EdgeTableLists(sys.copies, s, d);
    }
    RoomyIntro(sys, p, cells, Work(sys.start, ct, q));
  }

  lemma StartBelow(sys: System, p: Facts, cells: set<Loc>)
    requires Ample(sys, p, cells)
    ensures InBounds(sys.start) && Below(sys.start, p) && sys.start.saturated == {} && |sys.start.names| == sys.start.n
    ensures forall d: nat, s: nat :: (d, s) in sys.copies ==>
              s < sys.start.n && d < sys.start.n && Includes(p, sys.start.names[d], sys.start.names[s])
  {
    hide Slim, Includes, FieldsIn;
  }

  lemma {:induction false} SeededRoomy(sys: System, p: Facts, cells: set<Loc>, w: Work, k: nat)
    requires Ample(sys, p, cells) && Roomy(sys, p, cells, w) && k <= |sys.addr|
    ensures Goes(sys, p, cells, w, Seeded(w, sys.addr[..k]))
  {
    if k > 0 {
      SeededRoomy(sys, p, cells, w, k - 1);
      assert sys.addr[..k][..k - 1] == sys.addr[..k - 1];
      var v := Seeded(w, sys.addr[..k - 1]);
      AddrFits(sys, p, cells, v, k - 1);
      hide Ample, Roomy, Grow;
      GrowRoomy(sys, p, cells, v, sys.addr[k - 1].0, {sys.addr[k - 1].1});
    }
  }

  lemma AddrFits(sys: System, p: Facts, cells: set<Loc>, v: Work, i: nat)
    requires Ample(sys, p, cells) && Roomy(sys, p, cells, v) && i < |sys.addr|
    ensures var (q, o) := sys.addr[i];
            q < |v.st.names| && o < |v.st.names| && (v.st.names[q], v.st.names[o]) in p
  {
    var (q, o) := sys.addr[i];
    assert (q, o) in sys.addr;
    assert q < sys.start.n && o < sys.start.n;
    assert sys.start.names[q] == v.st.names[q] && sys.start.names[o] == v.st.names[o];
    hide Good, Slim, Includes;
  }

  lemma {:induction false} AwakeRoomy(sys: System, p: Facts, cells: set<Loc>, w: Work, n: nat)
    requires Roomy(sys, p, cells, w)
    ensures Roomy(sys, p, cells, Awake(w, n))
  {
    hide Roomy;
    if n > 0 {
      AwakeRoomy(sys, p, cells, w, n - 1);
      var v := Awake(w, n - 1);
      QueueFree(sys, p, cells, v, Enqueue(v.q, n - 1));
    }
  }

  lemma QueueFree(sys: System, p: Facts, cells: set<Loc>, w: Work, q: Queue)
    requires Roomy(sys, p, cells, w)
    ensures Roomy(sys, p, cells, w.(q := q))
  {
  }

  lemma BegunRoomy(sys: System, p: Facts, cells: set<Loc>)
    requires Ample(sys, p, cells)
    ensures Roomy(sys, p, cells, Begun(sys))
  {
    StartRoomy(sys, p, cells, Queue([], {}));
    var w := Work(sys.start, EdgeTable(sys.copies), Queue([], {}));
    hide Ample, Roomy, Seeded, Awake, EdgeTable;
    SeededRoomy(sys, p, cells, w, |sys.addr|);
    assert sys.addr[..|sys.addr|] == sys.addr;
    AwakeRoomy(sys, p, cells, Seeded(w, sys.addr), sys.start.n);
  }

  /**
   If the system has a solution with at most 64 targets everywhere and few
   cells, every run of the solver ends without meeting a cap.
   */
  lemma RoomSuffices(sys: System, p: Facts, cells: set<Loc>, st: State)
    requires Ample(sys, p, cells) && EndsIn(sys, st)
    ensures Exact(st)
  {
    var tb, w := TablesOf(sys), Begun(sys);
    var k: nat, end: Work :| Turns(tb, w, end, k) && end.q.work == [] && end.st == st;
    hide Ample, Roomy, Turns, TablesOf, Begun;
    BegunRoomy(sys, p, cells);
    TurnsRoomy(sys, p, cells, w, end, k);
    BelowBudget(sys, p, cells, end);
    NoneSaturated(sys, p, cells, end);
  }

  lemma NoneSaturated(sys: System, p: Facts, cells: set<Loc>, w: Work)
    requires Roomy(sys, p, cells, w)
    ensures w.st.saturated == {}
  {
  }
}
