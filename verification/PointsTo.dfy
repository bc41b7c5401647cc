/**
 The field-sensitive points-to solver: a worklist that grows sets in place,
 creates field cells as it meets them, and adds a copy edge for every load and
 store target it discovers (crates/absint/src/pointsto.rs:163-366).
 */
module PointsTo {
  import opened Wrappers
  import opened PointsToRules
  import opened PointsToSteps

  // ------------------------------------------------------------ worklist and copy edges

  ghost predicate QueueOk(q: Queue, n: nat) {
    && (forall x: nat :: x in q.on ==> x in q.work)
    && (forall x: nat :: x in q.work ==> x < n)
  }

  ghost predicate EdgesIn(ct: Edges, n: nat) {
    forall s: nat, d: nat :: d in Targets(ct, s) ==> s < n && d < n
  }

  ghost predicate Extends(ct: Edges, ct': Edges) {
    forall s: nat, d: nat :: d in Targets(ct, s) ==> d in Targets(ct', s)
  }

  // ------------------------------------------------------------ what the loop keeps

  ghost predicate EdgesSettled(st: State, before: set<nat>, ct: Edges, pend: set<nat>) {
    forall s: nat, d: nat :: d in Targets(ct, s) ==> s in pend || EdgeMet(st, before, s, d)
  }

  ghost predicate EdgesHold(sys: System, st: State, ct: Edges)
    requires Scoped(sys, sys.start.n) && Good(sys.start) && InBounds(st)
  {
    forall s: nat, d: nat :: d in Targets(ct, s) ==> EdgeHolds(sys, st, s, d)
  }

  ghost predicate Posed(sys: System) {
    Scoped(sys, sys.start.n) && Good(sys.start)
  }

  /** As long as no cap is met, nothing beyond the least solution is in the sets or along the edges. */
  ghost predicate Sound(sys: System, st: State, ct: Edges)
    requires Posed(sys) && Good(st)
  {
    NoAnyOffset(sys) && Exact(st) ==> Derived(sys, st) && EdgesHold(sys, st, ct)
  }

  /** Between two steps: a copy edge still has something to carry only out of a waiting node. */
  ghost predicate Running(sys: System, st: State, ct: Edges, q: Queue, held: set<nat>) {
    && Posed(sys) && Good(st) && Later(sys.start, st) && EdgesIn(ct, st.n) && QueueOk(q, st.n)
    && Sound(sys, st, ct) && (NoAnyOffset(sys) ==> st.poisoned == sys.start.poisoned)
    && EdgesSettled(st, sys.start.poisoned, ct, q.on + held)
  }

  /** One stretch of work: the state grew, and a node was queued only if some set grew. */
  ghost predicate Progress(s: State, q: Queue, t: State, q': Queue, cap: nat, before: set<nat>) {
    && Later(s, t) && t.n <= cap && q.on <= q'.on
    && Calm(s, t, q'.on, before)
    && Rooms(t, cap, cap) <= Rooms(s, cap, cap)
    && (q' == q || Rooms(t, cap, cap) < Rooms(s, cap, cap))
  }

  lemma ProgressTrans(s: State, q: Queue, t: State, q': Queue, u: State, q'': Queue, cap: nat, before: set<nat>)
    requires Progress(s, q, t, q', cap, before) && Progress(t, q', u, q'', cap, before)
    ensures Progress(s, q, u, q'', cap, before)
  {
    LaterTrans(s, t, u);
    CalmTrans(s, t, u, q'.on, q''.on, before);
    hide Later, Calm, Rooms;
  }

  lemma ProgressRefl(s: State, q: Queue, cap: nat, before: set<nat>)
    requires Good(s) && s.n <= cap
    ensures Progress(s, q, s, q, cap, before)
  {
    hide Rooms, Named, Marked;
  }

  lemma EdgeMetLater(s: State, t: State, x: nat, y: nat, on: set<nat>, before: set<nat>)
    requires Later(s, t) && Calm(s, t, on, before) && EdgeMet(s, before, x, y)
    ensures x in on || EdgeMet(t, before, x, y)
  {
    hide Stained;
    if x !in on && Stained(s, before, x) {
      StainedLater(s, t, before, x);
    }
  }

  lemma GepDoneLater(s: State, t: State, d: nat, o: nat, off: nat)
    requires Later(s, t) && GepDone(s, d, o, off)
    ensures GepDone(t, d, o, off)
  {
  }

  lemma EdgesLater(s: State, t: State, ct: Edges, pend: set<nat>, on: set<nat>, pend': set<nat>, before: set<nat>)
    requires Later(s, t) && Calm(s, t, on, before) && EdgesSettled(s, before, ct, pend) && pend <= pend' && on <= pend'
    ensures EdgesSettled(t, before, ct, pend')
  {
    hide EdgeMet, Calm, Later;
    forall x: nat, y: nat | y in Targets(ct, x) ensures x in pend' || EdgeMet(t, before, x, y) {
      if x !in pend' {
        EdgeMetLater(s, t, x, y, on, before);
      }
    }
  }

  lemma HoldLater(sys: System, s: State, t: State, ct: Edges)
    requires Posed(sys) && Good(s) && Good(t) && Later(s, t) && EdgesHold(sys, s, ct)
    ensures EdgesHold(sys, t, ct)
  {
    forall x: nat, y: nat | y in Targets(ct, x) ensures EdgeHolds(sys, t, x, y) {
      EdgeHoldsLater(sys, s, t, x, y);
    }
  }

  // ------------------------------------------------------------ single steps

  /** Adding one target to `dst`, justified by the constraints, keeps everything. */
  lemma AddKeeps(sys: System, st: State, ct: Edges, q: Queue, held: set<nat>, dst: nat, extra: set<nat>, cap: nat)
    returns (q': Queue)
    requires Running(sys, st, ct, q, held) && dst < st.n <= cap && (forall o: nat :: o in extra ==> o < st.n)
    requires NoAnyOffset(sys) && Exact(Widen(st, dst, extra)) && Derived(sys, st) ==>
               InBounds(Widen(st, dst, extra)) && Derived(sys, Widen(st, dst, extra))
    ensures q' == if Widen(st, dst, extra) == st then q else Enqueue(q, dst)
    ensures Running(sys, Widen(st, dst, extra), ct, q', held)
    ensures Progress(st, q, Widen(st, dst, extra), q', cap, sys.start.poisoned)
  {
    var t := Widen(st, dst, extra);
    q' := if t == st then q else Enqueue(q, dst);
    WidenGood(st, dst, extra);
    WidenLater(st, dst, extra, q'.on);
    WidenRooms(st, dst, extra, cap);
    LaterTrans(sys.start, st, t);
    QuietCalm(st, t, q'.on, sys.start.poisoned);
    assert t.poisoned == st.poisoned;
    hide Widen, Named, Marked, Rooms, Derived, EdgesHold, EdgesSettled, Closed, Calm;
    EdgesLater(st, t, ct, q.on + held, q'.on, q'.on + held, sys.start.poisoned);
    if NoAnyOffset(sys) && Exact(t) {
      LaterExact(st, t);
      HoldLater(sys, st, t, ct);
    }
  }

  lemma InternProgress(st: State, q: Queue, o: nat, off: nat, cap: nat, before: set<nat>)
    requires Good(st) && o < st.n <= cap && MAX_NODES <= cap && before <= st.poisoned
    ensures Progress(st, q, Interned(st, o, off), q, cap, before)
  {
    InternedGood(st, o, off);
    InternedLater(st, o, off, q.on);
    InternedCalm(st, o, off, q.on, before);
    InternedRooms(st, o, off, cap);
    hide Interned, Named, Marked, Rooms, FieldNode, Calm;
  }

  lemma InternRuns(sys: System, st: State, ct: Edges, q: Queue, held: set<nat>, o: nat, off: nat)
    requires Running(sys, st, ct, q, held) && o < st.n && (NoAnyOffset(sys) ==> off != ANY_OFFSET)
    ensures Running(sys, Interned(st, o, off), ct, q, held)
  {
    var t := Interned(st, o, off);
    InternedGood(st, o, off);
    InternedLater(st, o, off, q.on);
    InternedCalm(st, o, off, q.on, sys.start.poisoned);
    assert off != ANY_OFFSET ==> t.poisoned == st.poisoned;
    LaterTrans(sys.start, st, t);
    if NoAnyOffset(sys) && Exact(t) {
      LaterExact(st, t);
      DerivedIntern(sys, st, o, off);
    }
    hide Interned, Named, Marked, Derived, EdgesHold, EdgesSettled, Closed, FieldNode, Calm;
    EdgesLater(st, t, ct, q.on + held, q.on, q.on + held, sys.start.poisoned);
    if NoAnyOffset(sys) && Exact(t) {
      HoldLater(sys, st, t, ct);
    }
  }

  lemma InternKeeps(sys: System, st: State, ct: Edges, q: Queue, held: set<nat>, o: nat, off: nat, cap: nat)
    requires Running(sys, st, ct, q, held) && o < st.n <= cap && MAX_NODES <= cap
    requires NoAnyOffset(sys) ==> off != ANY_OFFSET
    ensures Running(sys, Interned(st, o, off), ct, q, held)
    ensures Progress(st, q, Interned(st, o, off), q, cap, sys.start.poisoned)
    ensures FieldNode(Interned(st, o, off), o, off).Some?
    ensures FieldNode(Interned(st, o, off), o, off).value < Interned(st, o, off).n
  {
    hide *;
    RunningFacts(sys, st, ct, q, held);
    PoisonKept(sys.start, st);
    InternedGood(st, o, off);
    InternRuns(sys, st, ct, q, held, o, off);
    InternProgress(st, q, o, off, cap, sys.start.poisoned);
  }

  lemma PoisonKept(s: State, t: State)
    requires Later(s, t)
    ensures s.poisoned <= t.poisoned
  {
  }

  /** The constraints on `node` were triggered by targets it still has, unless it was saturated. */
  ghost predicate Covers(st: State, node: nat, o: nat) {
    node < st.n == |st.pts| && o < st.n && (node in st.saturated || o in st.pts[node])
  }

  lemma CoversLater(s: State, t: State, node: nat, objs: seq<nat>)
    requires Later(s, t) && forall o: nat :: o in objs ==> Covers(s, node, o)
    ensures forall o: nat :: o in objs ==> Covers(t, node, o)
  {
  }

  lemma RunningFacts(sys: System, st: State, ct: Edges, q: Queue, held: set<nat>)
    requires Running(sys, st, ct, q, held)
    ensures Posed(sys) && Good(st) && Later(sys.start, st) && |st.pts| == st.n && sys.start.n <= st.n
    ensures NoAnyOffset(sys) && Exact(st) ==> Derived(sys, st)
    ensures forall x: nat :: x in q.on ==> x < st.n
  {
  }

  /** A new copy edge that has just been followed. */
  lemma EdgeAdded(sys: System, st: State, ct: Edges, q: Queue, held: set<nat>, s: nat, d: nat)
    requires Running(sys, st, ct, q, held) && s < st.n && d < st.n && EdgeDone(st, s, d)
    requires NoAnyOffset(sys) && Exact(st) ==> EdgeHolds(sys, st, s, d)
    ensures Running(sys, st, WithEdge(ct, s, d), q, held)
  {
    var ct' := WithEdge(ct, s, d);
    assert EdgeMet(st, sys.start.poisoned, s, d);
    hide InBounds, Named, Marked, Derived, EdgeDone, EdgeHolds, Closed, Exact, Later, QueueOk, EdgeMet;
    assert forall x: nat, y: nat :: y in Targets(ct', x) <==> y in Targets(ct, x) || (x == s && y == d);
    forall x: nat, y: nat | y in Targets(ct', x) ensures x in q.on + held || EdgeMet(st, sys.start.poisoned, x, y) {
      assert y in Targets(ct, x) || (x == s && y == d);
    }
  }

  /** Give back the elements of a set in some order. */
  method Listing(s: set<nat>) returns (q: seq<nat>)
    ensures IsListing(q, s)
  {
    q := [];
    var left := s;
    while left != {}
      invariant left <= s && IsListing(q, s - left)
    {
      var x :| x in left;
      left := left - {x};
      q := q + [x];
    }
  }

  lemma {:induction false} PairTableHas(list: seq<(nat, nat)>)
    ensures forall s: nat, d: nat :: (d, s) in list <==> s in PairTable(list) && d in PairTable(list)[s]
  {
    if list != [] {
      var init, m := list[..|list| - 1], PairTable(list);
      var (d0, s0) := list[|list| - 1];
      PairTableHas(init);
      forall s: nat, d: nat ensures (d, s) in list <==> s in m && d in m[s] {
        assert (d, s) in list <==> (d, s) in init || (d, s) == (d0, s0);
      }
    }
  }

  lemma {:induction false} GepTableHas(list: seq<(nat, nat, nat)>)
    ensures forall s: nat, d: nat, off: nat ::
              (d, s, off) in list <==> s in GepTable(list) && (d, off) in GepTable(list)[s]
  {
    if list != [] {
      var init, m := list[..|list| - 1], GepTable(list);
      var (d0, s0, off0) := list[|list| - 1];
      GepTableHas(init);
      forall s: nat, d: nat, off: nat ensures (d, s, off) in list <==> s in m && (d, off) in m[s] {
        assert (d, s, off) in list <==> (d, s, off) in init || (d, s, off) == (d0, s0, off0);
      }
    }
  }

  /** Index pairs by their second component. */
  method IndexPairs(list: seq<(nat, nat)>) returns (m: map<nat, seq<nat>>)
    ensures m == PairTable(list) && forall s: nat, d: nat :: (d, s) in list <==> s in m && d in m[s]
  {
    m := map[];
    for i := 0 to |list|
      invariant m == PairTable(list[..i])
    {
      var (d, s) := list[i];
      m := m[s := (if s in m then m[s] else []) + [d]];
      assert list[..i + 1][..i] == list[..i];
    }
    assert list[..|list|] == list;
    PairTableHas(list);
  }

  method IndexGeps(list: seq<(nat, nat, nat)>) returns (m: map<nat, seq<(nat, nat)>>)
    ensures m == GepTable(list)
    ensures forall s: nat, d: nat, off: nat :: (d, s, off) in list <==> s in m && (d, off) in m[s]
  {
    m := map[];
    for i := 0 to |list|
      invariant m == GepTable(list[..i])
    {
      var (d, s, off) := list[i];
      m := m[s := (if s in m then m[s] else []) + [(d, off)]];
      assert list[..i + 1][..i] == list[..i];
    }
    assert list[..|list|] == list;
    GepTableHas(list);
  }

  ghost predicate CopyIndex(list: seq<(nat, nat)>, ct: Edges) {
    forall s: nat, d: nat :: d in Targets(ct, s) <==> (d, s) in list
  }

  method IndexCopies(list: seq<(nat, nat)>) returns (ct: Edges)
    ensures CopyIndex(list, ct) && ct == EdgeTable(list)
  {
    ct := map[];
    for i := 0 to |list|
      invariant CopyIndex(list[..i], ct) && ct == EdgeTable(list[..i])
    {
      var (d, s) := list[i];
      ct := WithEdge(ct, s, d);
      assert list[..i + 1][..i] == list[..i];
    }
    assert list[..|list|] == list;
  }

  function CellsOf(cells: map<(nat, nat), nat>, obj: nat): set<nat> {
    set k | k in cells && k.0 == obj :: cells[k]
  }

  class Solver {
    var n: nat
    var pts: seq<set<nat>>
    var addr: seq<(nat, nat)>
    var copies: seq<(nat, nat)>
    var geps: seq<(nat, nat, nat)>
    var loads: seq<(nat, nat)>
    var stores: seq<(nat, nat)>
    var fieldCell: map<(nat, nat), nat>
    var poisoned: set<nat>
    var saturated: set<nat>
    ghost var names: seq<Loc>

    ghost function View(): State
      reads this
    {
      State(n, pts, fieldCell, poisoned, saturated, names)
    }

    /** The constraints, to be solved from the state `start`. */
    ghost function Rules(start: State): System
      reads this
    {
      System(addr, copies, geps, loads, stores, start)
    }

    /** A fresh solver: TOP is node 0. */
    constructor ()
      ensures Good(View()) && n == 1 && pts == [{}] && fieldCell == map[] && poisoned == {} && saturated == {}
      ensures Rules(View()) == System([], [], [], [], [], View())
    {
      n := 1;
      pts := [{}];
      addr, copies, geps, loads, stores := [], [], [], [], [];
      fieldCell, poisoned, saturated := map[], {}, {};
      names := [Base(TOP)];
    }

    /** Allocate a node for a variable or an object. */
    method NewVar() returns (x: nat)
      requires Good(View())
      modifies `n, `pts, `names
      ensures Good(View()) && x == old(n) && View() == Fresh(old(View()), Base(x), {})
    {
      NewVarGood(View());
      x := n;
      n := n + 1;
      pts := pts + [{}];
      names := names + [Base(x)];
    }

    /** `p = &o`. */
    method AddressOf(p: nat, o: nat)
      modifies `addr
      ensures addr == old(addr) + [(p, o)]
    {
      addr := addr + [(p, o)];
    }

    /** `dst = src`. */
    method Assign(dst: nat, src: nat)
      modifies `copies
      ensures copies == old(copies) + [(dst, src)]
    {
      copies := copies + [(dst, src)];
    }

    /** `dst = &src->field` at a byte offset. */
    method Gep(dst: nat, src: nat, off: nat)
      modifies `geps
      ensures geps == old(geps) + [(dst, src, off)]
    {
      geps := geps + [(dst, src, off)];
    }

    /** `dst = *src`. */
    method Load(dst: nat, src: nat)
      modifies `loads
      ensures loads == old(loads) + [(dst, src)]
    {
      loads := loads + [(dst, src)];
    }

    /** `*ptr = value`. */
    method Store(value: nat, ptr: nat)
      modifies `stores
      ensures stores == old(stores) + [(value, ptr)]
    {
      stores := stores + [(value, ptr)];
    }

    /** Commit a rewritten relation. */
    method Replace(n': nat, pts': seq<set<nat>>, cells': map<(nat, nat), nat>, poisoned': set<nat>,
                   saturated': set<nat>,
                   ghost names': seq<Loc>, addr': seq<(nat, nat)>, copies': seq<(nat, nat)>,
                       geps': seq<(nat, nat, nat)>,
                   loads': seq<(nat, nat)>, stores': seq<(nat, nat)>)
      modifies this
      ensures View() == State(n', pts', cells', poisoned', saturated', names')
      ensures Rules(View()) == System(addr', copies', geps', loads', stores', View())
    {
      n, pts, fieldCell, poisoned, saturated, names := n', pts', cells', poisoned', saturated', names';
      addr, copies, geps, loads, stores := addr', copies', geps', loads', stores';
    }

    /** TOP enters the object and every cell it has. */
    method Poison(obj: nat)
      requires Good(View()) && obj < n
      modifies `pts, `poisoned
      ensures View() == Poisoned(old(View()), obj)
    {
      if obj == TOP || obj in poisoned {
        return;
      }
      CellsBound(View(), obj);
      hide Good, Poisoned, CellsOf;
      poisoned := poisoned + {obj};
      Mark({obj} + CellsOf(fieldCell, obj));
      PoisonedBy(old(View()), obj, pts);
    }

    /** Add TOP to each of the given nodes. */
    method Mark(cells: set<nat>)
      requires forall c: nat :: c in cells ==> c < |pts|
      modifies `pts
      ensures |pts| == |old(pts)|
      ensures forall x: nat :: x < |pts| ==> pts[x] == if x in cells then old(pts)[x] + {TOP} else old(pts)[x]
    {
      var left := cells;
      while left != {}
        invariant left <= cells && |pts| == |old(pts)|
        invariant forall x: nat :: x < |pts| ==>
                    pts[x] == if x in cells - left then old(pts)[x] + {TOP} else old(pts)[x]
      {
        var c :| c in left;
        left := left - {c};
        pts := pts[c := pts[c] + {TOP}];
      }
    }

    /** The node of a field: TOP for fields of TOP and unknown offsets, the object itself at offset 0. */
    method InternField(obj: nat, off: nat) returns (c: nat)
      requires Good(View()) && obj < n
      modifies `n, `pts, `fieldCell, `poisoned, `names
      ensures View() == Interned(old(View()), obj, off) && FieldNode(View(), obj, off) == Some(c)
    {
      if obj == TOP {
        return TOP;
      }
      if off == ANY_OFFSET {
        Poison(obj);
        return TOP;
      }
      if off == 0 {
        return obj;
      }
      if (obj, off) in fieldCell {
        return fieldCell[(obj, off)];
      }
      if n >= MAX_NODES {
        return TOP;
      }
      c := n;
      n := n + 1;
      pts := pts + [{}];
      names := names + [Field(names[obj], off)];
      fieldCell := fieldCell[(obj, off) := c];
      if obj in poisoned {
        pts := pts[c := pts[c] + {TOP}];
        assert pts[c] == {TOP};
        assert pts == old(pts) + [{TOP}];
      }
    }

    /** Collapse a set that has outgrown the cap. */
    method Saturate(dst: nat)
      requires dst < |pts|
      modifies `pts, `saturated
      ensures pts == if |old(pts)[dst]| > MAX_PTS_SET then old(pts)[dst := {TOP}] else old(pts)
      ensures saturated == if |old(pts)[dst]| > MAX_PTS_SET then old(saturated) + {dst} else old(saturated)
    {
      if |pts[dst]| > MAX_PTS_SET {
        pts := pts[dst := {TOP}];
        saturated := saturated + {dst};
      }
    }

    method Add(dst: nat, obj: nat) returns (changed: bool)
      requires |pts| == n && dst < n
      modifies `pts, `saturated
      ensures View() == Widen(old(View()), dst, {obj}) && (changed <==> View() != old(View()))
    {
      if dst in saturated {
        return false;
      }
      changed := obj !in pts[dst];
      if changed {
        pts := pts[dst := pts[dst] + {obj}];
        Saturate(dst);
      }
    }

    method Union(dst: nat, src: nat) returns (changed: bool)
      requires |pts| == n && dst < n && src < n
      modifies `pts, `saturated
      ensures View() == Widen(old(View()), dst, old(pts)[src]) && (changed <==> View() != old(View()))
    {
      if dst == src || dst in saturated {
        return false;
      }
      var srcs := Listing(pts[src]);
      changed := false;
      ghost var before := pts;
      for i := 0 to |srcs|
        invariant |pts| == n && n == old(n) && saturated == old(saturated) && dst < n
        invariant pts == before[dst := pts[dst]]
        invariant forall x: nat :: x in pts[dst] <==> x in before[dst] || x in srcs[..i]
        invariant changed <==> pts[dst] != before[dst]
      {
        if srcs[i] !in pts[dst] {
          changed := true;
          pts := pts[dst := pts[dst] + {srcs[i]}];
        }
      }
      assert pts[dst] == before[dst] + before[src];
      if changed {
        Saturate(dst);
      } else {
        assert pts == before;
      }
    }

    // ---------------------------------------------------------- the solver

    /** Flow all of `src` into `dst`, queueing `dst` if it grew. */
    method Flow(dst: nat, src: nat, q: Queue, ghost sys: System, ghost ct: Edges, ghost held: set<nat>, ghost cap: nat)
      returns (q': Queue)
      requires Running(sys, View(), ct, q, held) && src < n && dst < n <= cap
      requires NoAnyOffset(sys) && Exact(View()) ==> EdgeHolds(sys, View(), src, dst)
      modifies `pts, `saturated
      ensures Running(sys, View(), ct, q', held) && EdgeDone(View(), src, dst)
      ensures Progress(old(View()), q, View(), q', cap, sys.start.poisoned)
      ensures Work(View(), ct, q') == FlowTo(Work(old(View()), ct, q), dst, src)
    {
      ghost var st := View();
      RunningFacts(sys, st, ct, q, held);
      WidenLater(st, dst, pts[src], q.on);
      FlowDerived(sys, st, src, dst);
      ghost var qk := AddKeeps(sys, st, ct, q, held, dst, pts[src], cap);
      hide Running, Progress, Good, Derived, EdgeHolds, Widen, Later, Quiet, Calm;
      q' := q;
      var changed := Union(dst, src);
      if changed {
        q' := Enqueue(q', dst);
      }
    }

    /** Resolve one field of one target. */
    method GepOne(dst: nat, off: nat, o: nat, q: Queue, ghost node: nat, ghost sys: System, ghost ct: Edges,
                  ghost cap: nat)
      returns (q': Queue)
      requires Running(sys, View(), ct, q, {node}) && (dst, node, off) in sys.geps && n <= cap && MAX_NODES <= cap
      requires Covers(View(), node, o)
      modifies `n, `pts, `fieldCell, `poisoned, `saturated, `names
      ensures Running(sys, View(), ct, q', {node}) && GepDone(View(), dst, o, off)
      ensures Progress(old(View()), q, View(), q', cap, sys.start.poisoned)
      ensures Work(View(), ct, q') == TakeField(Work(old(View()), ct, q), dst, off, o)
    {
      ghost var st := View();
      RunningFacts(sys, st, ct, q, {node});
      assert NoAnyOffset(sys) ==> off != ANY_OFFSET;
      InternKeeps(sys, st, ct, q, {node}, o, off, cap);
      hide Running, Progress, Good, Derived, Widen, Interned, Later, Calm, Covers, TakeField, Grow;
      var cell := InternField(o, off);
      ghost var mid := View();
      GepDerived(sys, st, mid, ct, q, dst, node, off, o);
      ghost var qk := AddKeeps(sys, mid, ct, q, {node}, dst, {cell}, cap);
      q' := q;
      var changed := Add(dst, cell);
      if changed {
        q' := Enqueue(q', dst);
      }
      FieldTaken(Work(st, ct, q), mid, dst, off, o, cell, q');
      GepAdded(mid, dst, o, off);
      ProgressTrans(st, q, mid, q, View(), q', cap, sys.start.poisoned);
    }

    method GepEdge(dst: nat, off: nat, objs: seq<nat>, q: Queue, ghost node: nat, ghost sys: System, ghost ct: Edges,
                   ghost cap: nat)
      returns (q': Queue)
      requires Midway(sys, View(), q, View(), ct, q, node, objs, cap) && (dst, node, off) in sys.geps
      modifies `n, `pts, `fieldCell, `poisoned, `saturated, `names
      ensures Midway(sys, old(View()), q, View(), ct, q', node, objs, cap)
      ensures GepAll(View(), dst, off, objs)
      ensures Work(View(), ct, q') == Fields(Work(old(View()), ct, q), dst, off, objs)
    {
      ghost var st := View();
      hide Midway, GepDone, Running, Progress, Covers, Later, Fields, TakeField;
      FieldsNone(Work(st, ct, q), dst, off, objs);
      q' := q;
      for k := 0 to |objs|
        invariant Midway(sys, st, q, View(), ct, q', node, objs, cap)
        invariant GepAll(View(), dst, off, objs[..k])
        invariant Work(View(), ct, q') == Fields(Work(st, ct, q), dst, off, objs[..k])
      {
        ghost var s, p := View(), q';
        FieldsMore(Work(st, ct, q), dst, off, objs, k);
        MidwayFacts(sys, st, q, s, ct, p, node, objs, cap, objs[k]);
        q' := GepOne(dst, off, objs[k], q', node, sys, ct, cap);
        MidwayStep(sys, st, q, s, ct, p, View(), ct, q', node, objs, cap);
        GepAllLater(s, View(), dst, off, objs[..k]);
      }
      assert objs[..|objs|] == objs;
    }

    /** dst includes field(o, off) for every target o of the node. */
    method GepPhase(edges: seq<(nat, nat)>, objs: seq<nat>, q: Queue, ghost node: nat, ghost sys: System,
                    ghost ct: Edges,
                    ghost cap: nat)
      returns (q': Queue)
      requires Midway(sys, View(), q, View(), ct, q, node, objs, cap)
      requires forall d: nat, off: nat :: (d, off) in edges ==> (d, node, off) in sys.geps
      modifies `n, `pts, `fieldCell, `poisoned, `saturated, `names
      ensures Midway(sys, old(View()), q, View(), ct, q', node, objs, cap)
      ensures forall d: nat, off: nat :: (d, off) in edges ==> GepAll(View(), d, off, objs)
      ensures Work(View(), ct, q') == AllFields(Work(old(View()), ct, q), edges, objs)
    {
      ghost var st := View();
      hide Midway, GepAll, Later, Fields, AllFields;
      q' := q;
      AllFieldsNone(Work(st, ct, q), edges, objs);
      for k := 0 to |edges|
        invariant Midway(sys, st, q, View(), ct, q', node, objs, cap)
        invariant forall d: nat, off: nat :: (d, off) in edges[..k] ==> GepAll(View(), d, off, objs)
        invariant Work(View(), ct, q') == AllFields(Work(st, ct, q), edges[..k], objs)
      {
        ghost var s, p := View(), q';
        AllFieldsMore(Work(st, ct, q), edges, objs, k);
        var (dst, off) := edges[k];
        assert (dst, off) in edges;
        MidwayAgain(sys, st, q, s, ct, p, node, objs, cap);
        q' := GepEdge(dst, off, objs, q', node, sys, ct, cap);
        MidwayTrans(sys, st, q, s, ct, p, View(), ct, q', node, objs, cap);
        forall d: nat, b: nat | (d, b) in edges[..k] ensures GepAll(View(), d, b, objs) {
          GepAllLater(s, View(), d, b, objs);
        }
      }
      assert edges[..|edges|] == edges;
    }

    /** Add the copy edge `src -> dst` unless it is known, and follow it once. */
    method Link(src: nat, dst: nat, ct: Edges, q: Queue, ghost held: set<nat>, ghost sys: System, ghost cap: nat)
      returns (ct': Edges, q': Queue)
      requires Running(sys, View(), ct, q, held) && src < n && dst < n <= cap
      requires NoAnyOffset(sys) && Exact(View()) ==> EdgeHolds(sys, View(), src, dst)
      modifies `pts, `saturated
      ensures Running(sys, View(), ct', q', held) && Extends(ct, ct') && dst in Targets(ct', src)
      ensures Progress(old(View()), q, View(), q', cap, sys.start.poisoned)
      ensures Work(View(), ct', q') == LinkTo(Work(old(View()), ct, q), src, dst)
    {
      ghost var st := View();
      RunningGood(sys, st, ct, q, held);
      ct', q' := ct, q;
      if dst in Targets(ct, src) {
        ProgressRefl(st, q, cap, sys.start.poisoned);
        return;
      }
      hide Running, Progress, Later, Calm, EdgeDone, EdgeHolds, Good, FlowTo;
      ct' := WithEdge(ct', src, dst);
      q' := Flow(dst, src, q', sys, ct, held, cap);
      LinkHolds(sys, st, View(), ct, q', held, src, dst);
      EdgeAdded(sys, View(), ct, q', held, src, dst);
    }

    method LoadEach(dst: nat, objs: seq<nat>, ct: Edges, q: Queue, ghost node: nat, ghost sys: System, ghost cap: nat)
      returns (ct': Edges, q': Queue)
      requires Midway(sys, View(), q, View(), ct, q, node, objs, cap) && (dst, node) in sys.loads
      modifies `pts, `saturated
      ensures Midway(sys, old(View()), q, View(), ct', q', node, objs, cap)
      ensures Extends(ct, ct') && Loaded(ct', dst, objs)
      ensures Work(View(), ct', q') == Loads(Work(old(View()), ct, q), dst, objs)
    {
      ghost var st := View();
      hide Midway, Running, Progress, Covers, Later, Targets, EdgeHolds, Exact, Good, Loads, LinkTo;
      ct', q' := ct, q;
      LoadsNone(Work(st, ct, q), dst, objs);
      for k := 0 to |objs|
        invariant Midway(sys, st, q, View(), ct', q', node, objs, cap)
        invariant Extends(ct, ct') && Loaded(ct', dst, objs[..k])
        invariant Work(View(), ct', q') == Loads(Work(st, ct, q), dst, objs[..k])
      {
        ghost var s, c, p := View(), ct', q';
        LoadsMore(Work(st, ct, q), dst, objs, k);
        MidwayFacts(sys, st, q, s, c, p, node, objs, cap, objs[k]);
        LoadJustified(sys, s, c, p, node, dst, objs[k]);
        ct', q' := Link(objs[k], dst, ct', q', {node}, sys, cap);
        MidwayStep(sys, st, q, s, c, p, View(), ct', q', node, objs, cap);
      }
      assert objs[..|objs|] == objs;
    }

    /** dst includes *o for every target o of the node. */
    method LoadPhase(dsts: seq<nat>, objs: seq<nat>, ct: Edges, q: Queue, ghost node: nat, ghost sys: System,
                     ghost cap: nat)
      returns (ct': Edges, q': Queue)
      requires Midway(sys, View(), q, View(), ct, q, node, objs, cap)
      requires forall d: nat :: d in dsts ==> (d, node) in sys.loads
      modifies `pts, `saturated
      ensures Midway(sys, old(View()), q, View(), ct', q', node, objs, cap)
      ensures Extends(ct, ct') && forall d: nat :: d in dsts ==> Loaded(ct', d, objs)
      ensures Work(View(), ct', q') == AllLoads(Work(old(View()), ct, q), dsts, objs)
    {
      ghost var st := View();
      hide Midway, Running, Progress, Covers, Later, Targets, EdgeHolds, Exact, Good, Loads, AllLoads;
      ct', q' := ct, q;
      AllLoadsNone(Work(st, ct, q), dsts, objs);
      for k := 0 to |dsts|
        invariant Midway(sys, st, q, View(), ct', q', node, objs, cap)
        invariant Extends(ct, ct') && forall d: nat :: d in dsts[..k] ==> Loaded(ct', d, objs)
        invariant Work(View(), ct', q') == AllLoads(Work(st, ct, q), dsts[..k], objs)
      {
        ghost var s, c, p := View(), ct', q';
        AllLoadsMore(Work(st, ct, q), dsts, objs, k);
        assert dsts[k] in dsts;
        MidwayAgain(sys, st, q, s, c, p, node, objs, cap);
        ct', q' := LoadEach(dsts[k], objs, ct', q', node, sys, cap);
        LoadedExtends(c, ct', dsts[..k], objs);
        MidwayTrans(sys, st, q, s, c, p, View(), ct', q', node, objs, cap);
      }
      assert dsts[..|dsts|] == dsts;
    }

    method StoreEach(value: nat, objs: seq<nat>, ct: Edges, q: Queue, ghost node: nat, ghost sys: System,
                     ghost cap: nat)
      returns (ct': Edges, q': Queue)
      requires Midway(sys, View(), q, View(), ct, q, node, objs, cap) && (value, node) in sys.stores
      modifies `pts, `saturated
      ensures Midway(sys, old(View()), q, View(), ct', q', node, objs, cap)
      ensures Extends(ct, ct') && Stored(ct', value, objs)
      ensures Work(View(), ct', q') == Stores(Work(old(View()), ct, q), value, objs)
    {
      ghost var st := View();
      hide Midway, Running, Progress, Covers, Later, Targets, EdgeHolds, Exact, Good, Stores, LinkTo;
      ct', q' := ct, q;
      StoresNone(Work(st, ct, q), value, objs);
      for k := 0 to |objs|
        invariant Midway(sys, st, q, View(), ct', q', node, objs, cap)
        invariant Extends(ct, ct') && Stored(ct', value, objs[..k])
        invariant Work(View(), ct', q') == Stores(Work(st, ct, q), value, objs[..k])
      {
        ghost var s, c, p := View(), ct', q';
        StoresMore(Work(st, ct, q), value, objs, k);
        MidwayFacts(sys, st, q, s, c, p, node, objs, cap, objs[k]);
        StoreJustified(sys, s, c, p, node, value, objs[k]);
        ct', q' := Link(value, objs[k], ct', q', {node}, sys, cap);
        MidwayStep(sys, st, q, s, c, p, View(), ct', q', node, objs, cap);
      }
      assert objs[..|objs|] == objs;
    }

    /** *o includes the value for every target o of the node. */
    method StorePhase(values: seq<nat>, objs: seq<nat>, ct: Edges, q: Queue, ghost node: nat, ghost sys: System,
                      ghost cap: nat)
      returns (ct': Edges, q': Queue)
      requires Midway(sys, View(), q, View(), ct, q, node, objs, cap)
      requires forall v: nat :: v in values ==> (v, node) in sys.stores
      modifies `pts, `saturated
      ensures Midway(sys, old(View()), q, View(), ct', q', node, objs, cap)
      ensures Extends(ct, ct') && forall v: nat :: v in values ==> Stored(ct', v, objs)
      ensures Work(View(), ct', q') == AllStores(Work(old(View()), ct, q), values, objs)
    {
      ghost var st := View();
      hide Midway, Running, Progress, Covers, Later, Targets, EdgeHolds, Exact, Good, Stores, AllStores;
      ct', q' := ct, q;
      AllStoresNone(Work(st, ct, q), values, objs);
      for k := 0 to |values|
        invariant Midway(sys, st, q, View(), ct', q', node, objs, cap)
        invariant Extends(ct, ct') && forall v: nat :: v in values[..k] ==> Stored(ct', v, objs)
        invariant Work(View(), ct', q') == AllStores(Work(st, ct, q), values[..k], objs)
      {
        ghost var s, c, p := View(), ct', q';
        AllStoresMore(Work(st, ct, q), values, objs, k);
        assert values[k] in values;
        MidwayAgain(sys, st, q, s, c, p, node, objs, cap);
        ct', q' := StoreEach(values[k], objs, ct', q', node, sys, cap);
        StoredExtends(c, ct', values[..k], objs);
        MidwayTrans(sys, st, q, s, c, p, View(), ct', q', node, objs, cap);
      }
      assert values[..|values|] == values;
    }

    /** dst includes the node for every copy edge out of it. */
    method CopyPhase(dsts: seq<nat>, node: nat, q: Queue, ghost objs: seq<nat>, ghost sys: System, ghost ct: Edges,
                     ghost cap: nat)
      returns (q': Queue)
      requires Midway(sys, View(), q, View(), ct, q, node, objs, cap)
      requires forall d: nat :: d in dsts ==> d in Targets(ct, node)
      modifies `pts, `saturated
      ensures Midway(sys, old(View()), q, View(), ct, q', node, objs, cap)
      ensures forall d: nat :: d in dsts ==> node in q'.on || EdgeMet(View(), sys.start.poisoned, node, d)
      ensures Work(View(), ct, q') == Copies(Work(old(View()), ct, q), node, dsts)
    {
      ghost var st := View();
      hide Midway, Running, Progress, Covers, Later, Calm, Targets, EdgeHolds, Exact, Good, EdgeDone, Stained, Copies,
        FlowTo;
      q' := q;
      CopiesNone(Work(st, ct, q), node, dsts);
      for k := 0 to |dsts|
        invariant Midway(sys, st, q, View(), ct, q', node, objs, cap)
        invariant forall d: nat :: d in dsts[..k] ==> node in q'.on || EdgeMet(View(), sys.start.poisoned, node, d)
        invariant Work(View(), ct, q') == Copies(Work(st, ct, q), node, dsts[..k])
      {
        ghost var s, p := View(), q';
        CopiesMore(Work(st, ct, q), node, dsts, k);
        assert dsts[k] in dsts;
        MidwayRunning(sys, st, q, s, ct, p, node, objs, cap);
        CopyJustified(sys, s, ct, p, node, dsts[k]);
        q' := Flow(dsts[k], node, q', sys, ct, {node}, cap);
        MidwayStep(sys, st, q, s, ct, p, View(), ct, q', node, objs, cap);
        forall d: nat | d in dsts[..k] ensures node in q'.on || EdgeMet(View(), sys.start.poisoned, node, d) {
          EdgeProgress(s, p, View(), q', cap, node, d, sys.start.poisoned);
        }
      }
      assert dsts[..|dsts|] == dsts;
    }

    /** Revisit one node: everything its targets trigger. */
    method Visit(node: nat, gepTo: map<nat, seq<(nat, nat)>>, loadTo: map<nat, seq<nat>>, storeFrom: map<nat, seq<nat>>,
                 ct: Edges, q: Queue, ghost sys: System, ghost cap: nat)
      returns (ct': Edges, q': Queue, ghost objs: seq<nat>)
      requires Running(sys, View(), ct, q, {node}) && node < n <= cap && MAX_NODES <= cap
      requires Indexed(sys, gepTo, loadTo, storeFrom)
      modifies `n, `pts, `fieldCell, `poisoned, `saturated, `names
      ensures forall o: nat :: o in objs <==> o in old(pts)[node]
      ensures Midway(sys, old(View()), q, View(), ct', q', node, objs, cap)
      ensures Extends(ct, ct') && Triggered(sys, View(), ct', q', node, objs)
      ensures Visited(Tables(gepTo, loadTo, storeFrom), Work(old(View()), ct, q), Work(View(), ct', q'), node)
    {
      ghost var st := View();
      RunningGood(sys, st, ct, q, {node});
      var list := Listing(pts[node]);
      objs := list;
      MidwayStart(sys, st, ct, q, node, objs, cap);
      hide Midway, Running, Targets, Good, Later, GepAll, Loaded, Stored, EdgeDone, Indexed, Triggered, Extends,
        Entries,
        AllFields, AllLoads, AllStores, Copies, Visited;
      IndexedAt(sys, gepTo, loadTo, storeFrom, node);
      q' := GepPhase(Entries(gepTo, node), list, q, node, sys, ct, cap);
      ghost var st1, q1 := View(), q';
      MidwayAgain(sys, st, q, st1, ct, q1, node, objs, cap);
      ct', q' := LoadPhase(Entries(loadTo, node), list, ct, q', node, sys, cap);
      ghost var st2, ct2, q2 := View(), ct', q';
      MidwayTrans(sys, st, q, st1, ct, q1, st2, ct2, q2, node, objs, cap);
      MidwayAgain(sys, st, q, st2, ct2, q2, node, objs, cap);
      ct', q' := StorePhase(Entries(storeFrom, node), list, ct', q', node, sys, cap);
      ghost var st3, ct3, q3 := View(), ct', q';
      MidwayTrans(sys, st, q, st2, ct2, q2, st3, ct3, q3, node, objs, cap);
      MidwayAgain(sys, st, q, st3, ct3, q3, node, objs, cap);
      var dsts := Listing(Targets(ct', node));
      q' := CopyPhase(dsts, node, q', objs, sys, ct', cap);
      MidwayTrans(sys, st, q, st3, ct3, q3, View(), ct', q', node, objs, cap);
      VisitMade(Tables(gepTo, loadTo, storeFrom), Work(st, ct, q), Work(st1, ct, q1), Work(st2, ct2, q2),
                Work(st3, ct3, q3), Work(View(), ct', q'), node, objs, dsts);
      TriggeredGeps(st1, st2, st3, View(), Entries(gepTo, node), objs);
      AllTriggered(sys, View(), ct, ct2, ct', q', node, objs, Entries(gepTo, node), Entries(loadTo, node),
                   Entries(storeFrom, node), dsts);
    }

    /** Seed the worklist from the address-of constraints. */
    method SeedAddresses(ct: Edges, ghost sys: System) returns (q: Queue)
      requires Good(View()) && sys == Rules(View()) && Scoped(sys, n)
      requires CopyIndex(sys.copies, ct)
      modifies `pts, `saturated
      ensures n == old(n) && AddrDone(sys, View()) && Running(sys, View(), ct, q, Upto(n))
      ensures Work(View(), ct, q) == Seeded(Work(old(View()), ct, Queue([], {})), addr)
    {
      hide Running, Good, Later, Scoped, Widen, AddrDone, Upto, AddrUpTo, CopyIndex, Seeded, Grow, EdgeTable;
      ghost var all := Upto(n);
      q := Queue([], {});
      SeedStart(sys, View(), ct, q);
      NoSeeds(View(), addr);
      ghost var w := Work(View(), ct, q);
      SeededNone(w, addr);
      for i := 0 to |addr|
        invariant Running(sys, View(), ct, q, all)
        invariant AddrUpTo(View(), addr[..i])
        invariant Work(View(), ct, q) == Seeded(w, addr[..i])
      {
        SeededMore(w, addr, i);
        assert addr[..i + 1] == addr[..i] + [(addr[i].0, addr[i].1)];
        q := SeedOne(addr[i].0, addr[i].1, ct, q, all, sys, addr[..i]);
      }
      assert addr[..|addr|] == addr;
      SeedDone(sys, View(), addr[..|addr|]);
      RunningGood(sys, View(), ct, q, all);
    }

    method SeedOne(p: nat, o: nat, ghost ct: Edges, q: Queue, ghost held: set<nat>, ghost sys: System,
                   ghost done: seq<(nat, nat)>)
      returns (q': Queue)
      requires Running(sys, View(), ct, q, held) && (p, o) in sys.addr && AddrUpTo(View(), done)
      modifies `pts, `saturated
      ensures Running(sys, View(), ct, q', held) && AddrUpTo(View(), done + [(p, o)])
      ensures Work(View(), ct, q') == Grow(Work(old(View()), ct, q), p, {o})
    {
      ghost var st := View();
      RunningFacts(sys, st, ct, q, held);
      SeedDerived(sys, st, ct, q, held, p, o);
      SeedStep(st, done, p, o);
      ghost var qk := AddKeeps(sys, st, ct, q, held, p, {o}, n);
      hide Running, Progress, Widen, Derived, Good, AddrUpTo;
      q' := q;
      var changed := Add(p, o);
      if changed {
        q' := Enqueue(q', p);
      }
    }

    /** Seed the worklist with every node that already has targets. */
    method SeedNonEmpty(q: Queue, ghost ct: Edges, ghost sys: System) returns (q': Queue)
      requires Running(sys, View(), ct, q, Upto(n)) && |pts| == n
      ensures Running(sys, View(), ct, q', Upto(n))
      ensures forall x: nat :: x < |pts| && x !in q'.on ==> pts[x] == {}
      ensures Work(View(), ct, q') == Awake(Work(View(), ct, q), n)
    {
      hide Running, Awake;
      q' := q;
      AwakeNone(Work(View(), ct, q));
      for x := 0 to n
        invariant Running(sys, View(), ct, q', Upto(n))
        invariant Work(View(), ct, q') == Awake(Work(View(), ct, q), x)
        invariant forall y: nat :: y < x && y !in q'.on ==> pts[y] == {}
      {
        AwakeMore(Work(View(), ct, q), x);
        if pts[x] != {} {
          EnqueueKeeps(sys, View(), ct, q', Upto(n), x);
          q' := Enqueue(q', x);
        }
      }
    }

    /** Revisit nodes until none is waiting. */
    method Drain(gepTo: map<nat, seq<(nat, nat)>>, loadTo: map<nat, seq<nat>>, storeFrom: map<nat, seq<nat>>,
                 edges: Edges, queue: Queue, ghost sys: System, ghost cap: nat)
      requires Indexed(sys, gepTo, loadTo, storeFrom) && n <= cap && MAX_NODES <= cap
      requires Running(sys, View(), edges, queue, {}) && Settled(sys, View(), edges, queue.on)
      modifies `n, `pts, `fieldCell, `poisoned, `saturated, `names
      ensures Good(View()) && Later(sys.start, View()) && SolvedBesidesPoison(sys, View())
      ensures NoAnyOffset(sys) ==> Solved(sys, View())
      ensures NoAnyOffset(sys) && Exact(View()) ==> Final(sys, View())
      ensures Drains(Tables(gepTo, loadTo, storeFrom), Work(old(View()), edges, queue), View())
    {
      hide Running, Indexed, Settled, Good, Later, Midway, Solved, SolvedBesidesPoison, Final, Exact, NoAnyOffset,
        Triggered,
        Extends, Rooms, Entries, Turns, Visited, Drains;
      var ct, q := edges, queue;
      ghost var tb, w, k: nat := Tables(gepTo, loadTo, storeFrom), Work(View(), edges, queue), 0;
      TurnsNone(tb, w);
      while |q.work| > 0
        invariant Running(sys, View(), ct, q, {}) && n <= cap
        invariant Turns(tb, w, Work(View(), ct, q), k)
        invariant Settled(sys, View(), ct, q.on)
        decreases Rooms(View(), cap, cap), |q.work|
      {
        ghost var st, ct0, q0 := View(), ct, q;
        var node := q.work[|q.work| - 1];
        q := Queue(q.work[..|q.work| - 1], q.on - {node});
        PopKeeps(sys, st, ct, q0, q, node, cap);
        ghost var objs;
        ct, q, objs := Visit(node, gepTo, loadTo, storeFrom, ct, q, sys, cap);
        VisitDone(sys, st, ct0, q0, View(), ct, q, node, objs, cap);
        TurnMade(tb, w, Work(st, ct0, q0), Work(View(), ct, q), k);
        k := k + 1;
      }
      DrainsIntro(tb, w, Work(View(), ct, q), k);
      Finish(sys, View(), ct, q);
    }

    /**
     Solve the constraints with a worklist, visit by visit as specified. It
     terminates on every relation, cyclic field accesses included. Every constraint is met, but for TOP at nodes
     poisoned on the way; without unknown offsets the result is a fixpoint and,
     when no cap was met, the least solution.
     */
    method Solve()
      requires Good(View()) && Scoped(Rules(View()), n)
      modifies `n, `pts, `fieldCell, `poisoned, `saturated, `names
      ensures Good(View()) && Later(old(View()), View())
      ensures SolvedBesidesPoison(Rules(old(View())), View())
      ensures NoAnyOffset(Rules(old(View()))) ==> Solved(Rules(old(View())), View())
      ensures NoAnyOffset(Rules(old(View()))) && Exact(View()) ==> Final(Rules(old(View())), View())
      ensures EndsIn(Rules(old(View())), View())
    {
      hide Running, Indexed, Settled, Good, Later, Solved, SolvedBesidesPoison, Final, Exact, NoAnyOffset, Scoped,
        AddrDone,
        Upto, CopyIndex, Seeded, Awake, Begun, Drains, EdgeTable, PairTable, GepTable;
      ghost var sys := Rules(View());
      var ct := IndexCopies(copies);
      var gepTo := IndexGeps(geps);
      var loadTo := IndexPairs(loads);
      var storeFrom := IndexPairs(stores);
      IndexedIntro(sys, gepTo, loadTo, storeFrom);
      var q := SeedAddresses(ct, sys);
      RunningSize(sys, View(), ct, q, Upto(n));
      ghost var w1 := Work(View(), ct, q);
      q := SeedNonEmpty(q, ct, sys);
      BegunIs(sys, w1, Work(View(), ct, q));
      SeedSettled(sys, View(), ct, q);
      Drain(gepTo, loadTo, storeFrom, ct, q, sys, if n < MAX_NODES then MAX_NODES else n);
    }

    /** The one object a node may point to. */
    method SingletonObject(x: nat) returns (o: Option<nat>)
      requires Good(View()) && x < n
      ensures forall c: nat :: o == Some(c) <==> pts[x] == {c} && c != TOP
      ensures x in saturated ==> o == None
    {
      o := None;
      if |pts[x]| == 1 {
        var c :| c in pts[x];
        OneElement(pts[x], c);
        if c != TOP {
          o := Some(c);
        }
      }
    }
  }

  lemma OneElement(s: set<nat>, c: nat)
    requires |s| == 1 && c in s
    ensures s == {c}
  {
    assert |s - {c}| == 0;
  }

  /** The index tables list each constraint under the node that triggers it. */
  ghost predicate Indexed(sys: System, gepTo: map<nat, seq<(nat, nat)>>, loadTo: map<nat, seq<nat>>,
                          storeFrom: map<nat, seq<nat>>)
  {
    && (forall s: nat, d: nat, off: nat :: (d, s, off) in sys.geps <==> (d, off) in Entries(gepTo, s))
    && (forall s: nat, d: nat :: (d, s) in sys.loads <==> d in Entries(loadTo, s))
    && (forall p: nat, v: nat :: (v, p) in sys.stores <==> v in Entries(storeFrom, p))
  }

  lemma IndexedAt(sys: System, gepTo: map<nat, seq<(nat, nat)>>, loadTo: map<nat, seq<nat>>,
                  storeFrom: map<nat, seq<nat>>, node: nat)
    requires Indexed(sys, gepTo, loadTo, storeFrom)
    ensures forall d: nat, off: nat :: (d, node, off) in sys.geps <==> (d, off) in Entries(gepTo, node)
    ensures forall d: nat :: (d, node) in sys.loads <==> d in Entries(loadTo, node)
    ensures forall v: nat :: (v, node) in sys.stores <==> v in Entries(storeFrom, node)
  {
  }

  /** All constraints on `node` have been carried out for the targets `objs`. */
  ghost predicate Triggered(sys: System, st: State, ct: Edges, q: Queue, node: nat, objs: seq<nat>) {
    && (forall d: nat, off: nat :: (d, node, off) in sys.geps ==> GepAll(st, d, off, objs))
    && (forall d: nat :: (d, node) in sys.loads ==> Loaded(ct, d, objs))
    && (forall v: nat :: (v, node) in sys.stores ==> Stored(ct, v, objs))
    && (forall d: nat :: d in Targets(ct, node) ==> node in q.on || EdgeMet(st, sys.start.poisoned, node, d))
  }

  lemma TriggeredGeps(st1: State, st2: State, st3: State, st: State, edges: seq<(nat, nat)>, objs: seq<nat>)
    requires Later(st1, st2) && Later(st2, st3) && Later(st3, st)
    requires forall d: nat, off: nat :: (d, off) in edges ==> GepAll(st1, d, off, objs)
    ensures forall d: nat, off: nat :: (d, off) in edges ==> GepAll(st, d, off, objs)
  {
    forall d: nat, off: nat | (d, off) in edges ensures GepAll(st, d, off, objs) {
      hide Later, GepAll;
      GepAllLater(st1, st2, d, off, objs);
      GepAllLater(st2, st3, d, off, objs);
      GepAllLater(st3, st, d, off, objs);
    }
  }

  lemma AllTriggered(sys: System, st: State, ct0: Edges, ct2: Edges, ct: Edges, q: Queue, node: nat, objs: seq<nat>,
                     edges: seq<(nat, nat)>, loaded: seq<nat>, values: seq<nat>, dsts: seq<nat>)
    requires forall d: nat, off: nat :: (d, node, off) in sys.geps <==> (d, off) in edges
    requires forall d: nat :: (d, node) in sys.loads <==> d in loaded
    requires forall v: nat :: (v, node) in sys.stores <==> v in values
    requires forall d: nat, off: nat :: (d, off) in edges ==> GepAll(st, d, off, objs)
    requires forall d: nat :: d in loaded ==> Loaded(ct2, d, objs)
    requires forall v: nat :: v in values ==> Stored(ct, v, objs)
    requires forall d: nat :: d in dsts <==> d in Targets(ct, node)
    requires forall d: nat :: d in dsts ==> node in q.on || EdgeMet(st, sys.start.poisoned, node, d)
    requires Extends(ct0, ct2) && Extends(ct2, ct)
    ensures Extends(ct0, ct) && Triggered(sys, st, ct, q, node, objs)
  {
    LoadedExtends(ct2, ct, loaded, objs);
    hide GepAll, Loaded, Stored, EdgeMet, Targets;
  }

  lemma MidwayStart(sys: System, st: State, ct: Edges, q: Queue, node: nat, objs: seq<nat>, cap: nat)
    requires Running(sys, st, ct, q, {node}) && node < st.n <= cap && MAX_NODES <= cap
    requires |st.pts| == st.n && forall o: nat :: o in objs ==> o in st.pts[node]
    ensures Midway(sys, st, q, st, ct, q, node, objs, cap)
  {
    ProgressRefl(st, q, cap, sys.start.poisoned);
    hide Progress, Named, Marked, Later, Sound, EdgesSettled;
  }

  /** While a node is being revisited: the work done since `s`, and the targets it is done for. */
  ghost predicate Midway(sys: System, s: State, q: Queue, t: State, ct: Edges, q': Queue, node: nat, objs: seq<nat>,
                         cap: nat) {
    && Running(sys, t, ct, q', {node}) && Progress(s, q, t, q', cap, sys.start.poisoned) && MAX_NODES <= cap
    && node < t.n && forall o: nat :: o in objs ==> Covers(t, node, o)
  }

  lemma MidwayRunning(sys: System, s: State, q: Queue, t: State, ct: Edges, q': Queue, node: nat, objs: seq<nat>,
                      cap: nat)
    requires Midway(sys, s, q, t, ct, q', node, objs, cap)
    ensures Running(sys, t, ct, q', {node}) && node < t.n <= cap && MAX_NODES <= cap
  {
  }

  lemma MidwayFacts(sys: System, s: State, q: Queue, t: State, ct: Edges, q': Queue, node: nat, objs: seq<nat>,
                    cap: nat,
                    o: nat)
    requires Midway(sys, s, q, t, ct, q', node, objs, cap) && o in objs
    ensures Running(sys, t, ct, q', {node}) && node < t.n <= cap && MAX_NODES <= cap && Covers(t, node, o) && o < t.n
  {
  }

  lemma MidwayAgain(sys: System, s: State, q: Queue, t: State, ct: Edges, q': Queue, node: nat, objs: seq<nat>,
                    cap: nat)
    requires Midway(sys, s, q, t, ct, q', node, objs, cap)
    ensures Midway(sys, t, q', t, ct, q', node, objs, cap)
  {
    RunningGood(sys, t, ct, q', {node});
    ProgressRefl(t, q', cap, sys.start.poisoned);
  }

  lemma MidwayStep(sys: System, s: State, q: Queue, t: State, ct: Edges, q': Queue,
                   u: State, ct': Edges, q'': Queue, node: nat, objs: seq<nat>, cap: nat)
    requires Midway(sys, s, q, t, ct, q', node, objs, cap)
    requires Running(sys, u, ct', q'', {node}) && Progress(t, q', u, q'', cap, sys.start.poisoned)
    ensures Midway(sys, s, q, u, ct', q'', node, objs, cap) && Later(t, u)
  {
    ProgressTrans(s, q, t, q', u, q'', cap, sys.start.poisoned);
    CoversLater(t, u, node, objs);
    hide Running, Calm, Rooms;
  }

  lemma MidwayTrans(sys: System, s: State, q: Queue, t: State, ct: Edges, q': Queue,
                    u: State, ct': Edges, q'': Queue, node: nat, objs: seq<nat>, cap: nat)
    requires Midway(sys, s, q, t, ct, q', node, objs, cap) && Midway(sys, t, q', u, ct', q'', node, objs, cap)
    ensures Midway(sys, s, q, u, ct', q'', node, objs, cap) && Later(t, u)
  {
    MidwayStep(sys, s, q, t, ct, q', u, ct', q'', node, objs, cap);
  }

  lemma EdgeProgress(s: State, q: Queue, t: State, q': Queue, cap: nat, x: nat, y: nat, before: set<nat>)
    requires Progress(s, q, t, q', cap, before) && (x in q.on || EdgeMet(s, before, x, y))
    ensures x in q'.on || EdgeMet(t, before, x, y)
  {
    hide EdgeMet, Calm, Later, Rooms;
    if x !in q'.on {
      EdgeMetLater(s, t, x, y, q'.on, before);
    }
  }

  lemma LoadJustified(sys: System, st: State, ct: Edges, q: Queue, node: nat, dst: nat, o: nat)
    requires Running(sys, st, ct, q, {node}) && Covers(st, node, o) && (dst, node) in sys.loads
    ensures InBounds(st) && dst < st.n && (NoAnyOffset(sys) && Exact(st) ==> EdgeHolds(sys, st, o, dst))
  {
    RunningFacts(sys, st, ct, q, {node});
    hide Running, Derived, EdgeHolds, Named, Marked;
    if NoAnyOffset(sys) && Exact(st) {
      LoadEdge(sys, st, dst, node, o);
    }
  }

  lemma StoreJustified(sys: System, st: State, ct: Edges, q: Queue, node: nat, value: nat, o: nat)
    requires Running(sys, st, ct, q, {node}) && Covers(st, node, o) && (value, node) in sys.stores
    ensures InBounds(st) && value < st.n && (NoAnyOffset(sys) && Exact(st) ==> EdgeHolds(sys, st, value, o))
  {
    RunningFacts(sys, st, ct, q, {node});
    hide Running, Derived, EdgeHolds, Named, Marked;
    if NoAnyOffset(sys) && Exact(st) {
      StoreEdge(sys, st, value, node, o);
    }
  }

  lemma CopyJustified(sys: System, st: State, ct: Edges, q: Queue, node: nat, dst: nat)
    requires Running(sys, st, ct, q, {node}) && dst in Targets(ct, node)
    ensures InBounds(st) && node < st.n && dst < st.n
    ensures NoAnyOffset(sys) && Exact(st) ==> EdgeHolds(sys, st, node, dst)
  {
    hide EdgeHolds, Derived, Named, Marked, EdgesSettled, Later;
  }

  ghost predicate GepAll(st: State, d: nat, off: nat, objs: seq<nat>) {
    forall o: nat :: o in objs ==> GepDone(st, d, o, off)
  }

  ghost predicate Loaded(ct: Edges, d: nat, objs: seq<nat>) {
    forall o: nat :: o in objs ==> d in Targets(ct, o)
  }

  ghost predicate Stored(ct: Edges, v: nat, objs: seq<nat>) {
    forall o: nat :: o in objs ==> o in Targets(ct, v)
  }

  lemma LoadedExtends(ct: Edges, ct': Edges, dsts: seq<nat>, objs: seq<nat>)
    requires Extends(ct, ct') && forall d: nat :: d in dsts ==> Loaded(ct, d, objs)
    ensures forall d: nat :: d in dsts ==> Loaded(ct', d, objs)
  {
    forall d: nat | d in dsts ensures Loaded(ct', d, objs) {
      assert Loaded(ct, d, objs);
    }
  }

  lemma StoredExtends(ct: Edges, ct': Edges, values: seq<nat>, objs: seq<nat>)
    requires Extends(ct, ct') && forall v: nat :: v in values ==> Stored(ct, v, objs)
    ensures forall v: nat :: v in values ==> Stored(ct', v, objs)
  {
    forall v: nat | v in values ensures Stored(ct', v, objs) {
      assert Stored(ct, v, objs);
    }
  }

  lemma GepAllLater(s: State, t: State, d: nat, off: nat, objs: seq<nat>)
    requires Later(s, t) && GepAll(s, d, off, objs)
    ensures GepAll(t, d, off, objs)
  {
    forall o: nat | o in objs ensures GepDone(t, d, o, off) {
      GepDoneLater(s, t, d, o, off);
    }
  }

  lemma RunningGood(sys: System, st: State, ct: Edges, q: Queue, held: set<nat>)
    requires Running(sys, st, ct, q, held)
    ensures Posed(sys) && Good(st)
  {
  }

  lemma LinkHolds(sys: System, s: State, t: State, ct: Edges, q: Queue, held: set<nat>, x: nat, y: nat)
    requires Posed(sys) && Good(s) && Running(sys, t, ct, q, held) && Later(s, t)
    requires NoAnyOffset(sys) && Exact(s) ==> EdgeHolds(sys, s, x, y)
    ensures NoAnyOffset(sys) && Exact(t) ==> InBounds(t) && EdgeHolds(sys, t, x, y)
  {
    if NoAnyOffset(sys) && Exact(t) {
      LaterExact(s, t);
      EdgeHoldsLater(sys, s, t, x, y);
    }
  }

  lemma FlowDerived(sys: System, st: State, src: nat, dst: nat)
    requires Posed(sys) && Good(st) && src < st.n && dst < st.n
    requires NoAnyOffset(sys) && Exact(st) ==> EdgeHolds(sys, st, src, dst)
    ensures Later(st, Widen(st, dst, st.pts[src])) && EdgeDone(Widen(st, dst, st.pts[src]), src, dst)
    ensures NoAnyOffset(sys) && Exact(Widen(st, dst, st.pts[src])) && Derived(sys, st) ==>
              InBounds(Widen(st, dst, st.pts[src])) && Derived(sys, Widen(st, dst, st.pts[src]))
  {
    WidenLater(st, dst, st.pts[src], {});
    if NoAnyOffset(sys) && Exact(Widen(st, dst, st.pts[src])) && Derived(sys, st) {
      LaterExact(st, Widen(st, dst, st.pts[src]));
      DerivedUnion(sys, st, src, dst);
    }
  }

  lemma GepDerived(sys: System, st: State, mid: State, ct: Edges, q: Queue, dst: nat, node: nat, off: nat, o: nat)
    requires Running(sys, st, ct, q, {node}) && Running(sys, mid, ct, q, {node}) && Covers(st, node, o)
    requires mid == Interned(st, o, off) && (dst, node, off) in sys.geps && FieldNode(mid, o, off).Some?
    ensures dst < mid.n && |mid.pts| == mid.n && FieldNode(mid, o, off).value < mid.n
    ensures var t := Widen(mid, dst, {FieldNode(mid, o, off).value});
            NoAnyOffset(sys) && Exact(t) && Derived(sys, mid) ==> InBounds(t) && Derived(sys, t)
  {
    RunningFacts(sys, st, ct, q, {node});
    RunningFacts(sys, mid, ct, q, {node});
    InternedLater(st, o, off, {});
    InternedGood(st, o, off);
    CoversLater(st, mid, node, [o]);
    var t := Widen(mid, dst, {FieldNode(mid, o, off).value});
    assert dst < sys.start.n;
    hide Running, Named, Marked, Interned;
    if NoAnyOffset(sys) && Exact(t) && Derived(sys, mid) {
      WidenLater(mid, dst, {FieldNode(mid, o, off).value}, {});
      LaterExact(mid, t);
      DerivedGep(sys, mid, dst, node, off, o);
    }
  }

  lemma GepAdded(st: State, dst: nat, o: nat, off: nat)
    requires Good(st) && dst < st.n && FieldNode(st, o, off).Some?
    ensures GepDone(Widen(st, dst, {FieldNode(st, o, off).value}), dst, o, off)
  {
  }

  lemma CellsBound(st: State, obj: nat)
    requires Good(st) && obj < st.n
    ensures |st.pts| == st.n && forall x: nat :: x in {obj} + CellsOf(st.cells, obj) ==> x < st.n
  {
  }

  lemma PoisonedBy(st: State, obj: nat, pts: seq<set<nat>>)
    requires Good(st) && obj != TOP && obj !in st.poisoned && |pts| == st.n
    requires forall x: nat :: x < st.n ==>
               pts[x] == if x in {obj} + CellsOf(st.cells, obj) then st.pts[x] + {TOP} else st.pts[x]
    ensures Poisoned(st, obj) == st.(pts := pts, poisoned := st.poisoned + {obj})
  {
    hide Named, Marked;
    forall x: nat | x < st.n ensures Tainted(st, obj, x) <==> x in {obj} + CellsOf(st.cells, obj) {
      if x in CellsOf(st.cells, obj) {
        var k :| k in st.cells && k.0 == obj && st.cells[k] == x;
        assert (obj, k.1) in st.cells;
      }
    }
    hide Tainted, CellsOf;
    assert Poisoned(st, obj).pts == pts;
  }

  lemma NewVarGood(st: State)
    requires Good(st)
    ensures Good(Fresh(st, Base(st.n), {}))
  {
    var t := Fresh(st, Base(st.n), {});
    forall x: nat | x < st.n ensures st.names[x] != Base(st.n) && (IsCell(t, x) <==> IsCell(st, x)) {
    }
  }

  // ------------------------------------------------------------ settled constraints

  ghost predicate AddrDone(sys: System, st: State) {
    forall p: nat, o: nat :: (p, o) in sys.addr ==> p < |st.pts| && (p in st.saturated || o in st.pts[p])
  }

  ghost predicate CopiesIn(sys: System, ct: Edges) {
    forall d: nat, s: nat :: (d, s) in sys.copies ==> d in Targets(ct, s)
  }

  ghost predicate GepsSettled(sys: System, st: State, pend: set<nat>) {
    forall d: nat, s: nat, off: nat :: (d, s, off) in sys.geps ==>
        s < |st.pts| && (s in pend || GepsMet(st, sys.start.poisoned, d, s, off))
  }

  ghost predicate LoadWired(st: State, before: set<nat>, ct: Edges, d: nat, s: nat)
    requires s < |st.pts|
  {
    forall o: nat :: o in st.pts[s] ==> d in Targets(ct, o) || (o == TOP && Stained(st, before, s))
  }

  ghost predicate LoadsSettled(sys: System, st: State, ct: Edges, pend: set<nat>) {
    forall d: nat, s: nat :: (d, s) in sys.loads ==>
      s < |st.pts| && (s in pend || LoadWired(st, sys.start.poisoned, ct, d, s))
  }

  ghost predicate StoreWired(st: State, before: set<nat>, ct: Edges, v: nat, p: nat)
    requires p < |st.pts|
  {
    forall o: nat :: o in st.pts[p] ==> o in Targets(ct, v) || (o == TOP && Stained(st, before, p))
  }

  ghost predicate StoresSettled(sys: System, st: State, ct: Edges, pend: set<nat>) {
    forall v: nat, p: nat :: (v, p) in sys.stores ==>
      p < |st.pts| && (p in pend || StoreWired(st, sys.start.poisoned, ct, v, p))
  }

  /** Only constraints triggered by a waiting node can be unmet. */
  ghost predicate Settled(sys: System, st: State, ct: Edges, pend: set<nat>) {
    && AddrDone(sys, st) && CopiesIn(sys, ct) && EdgesSettled(st, sys.start.poisoned, ct, pend)
    && GepsSettled(sys, st, pend) && LoadsSettled(sys, st, ct, pend) && StoresSettled(sys, st, ct, pend)
  }

  lemma SeedStart(sys: System, st: State, ct: Edges, q: Queue)
    requires Good(st) && sys.start == st && Scoped(sys, st.n) && q == Queue([], {})
    requires CopyIndex(sys.copies, ct)
    ensures Running(sys, st, ct, q, Upto(st.n)) && Later(st, st)
  {
    assert Derived(sys, st) by {
      forall p: Facts | Closed(sys, p) ensures Below(st, p) {
      }
    }
    forall s: nat, d: nat | d in Targets(ct, s) ensures EdgeHolds(sys, st, s, d) {
      CopyEdge(sys, st, d, s);
    }
    hide Derived, EdgeHolds, Named, Marked;
    UptoHas(st.n);
  }

  lemma SeedDerived(sys: System, st: State, ct: Edges, q: Queue, held: set<nat>, p: nat, o: nat)
    requires Running(sys, st, ct, q, held) && (p, o) in sys.addr
    ensures p < st.n && o < st.n == |st.pts|
    ensures NoAnyOffset(sys) && Exact(Widen(st, p, {o})) && Derived(sys, st) ==>
              InBounds(Widen(st, p, {o})) && Derived(sys, Widen(st, p, {o}))
  {
    RunningFacts(sys, st, ct, q, held);
    assert p < sys.start.n && o < sys.start.n;
    hide Running, Named, Marked;
    if NoAnyOffset(sys) && Exact(Widen(st, p, {o})) && Derived(sys, st) {
      DerivedAddr(sys, st, p, o);
    }
  }

  ghost predicate AddrUpTo(st: State, done: seq<(nat, nat)>) {
    forall a: nat, b: nat :: (a, b) in done ==> a < |st.pts| && (a in st.saturated || b in st.pts[a])
  }

  lemma NoSeeds(st: State, addr: seq<(nat, nat)>)
    ensures AddrUpTo(st, addr[..0])
  {
  }

  lemma SeedStep(st: State, done: seq<(nat, nat)>, p: nat, o: nat)
    requires Good(st) && p < st.n && AddrUpTo(st, done)
    ensures AddrUpTo(Widen(st, p, {o}), done + [(p, o)])
  {
    hide Named;
  }

  lemma SeedDone(sys: System, st: State, done: seq<(nat, nat)>)
    requires done == sys.addr && AddrUpTo(st, done)
    ensures AddrDone(sys, st)
  {
  }

  lemma RunningSize(sys: System, st: State, ct: Edges, q: Queue, held: set<nat>)
    requires Running(sys, st, ct, q, held)
    ensures |st.pts| == st.n
  {
  }

  lemma EnqueueKeeps(sys: System, st: State, ct: Edges, q: Queue, held: set<nat>, x: nat)
    requires Running(sys, st, ct, q, held) && x < st.n
    ensures Running(sys, st, ct, Enqueue(q, x), held)
  {
    hide InBounds, Named, Marked, Sound, Later, EdgeMet;
  }

  lemma SeedSettled(sys: System, st: State, ct: Edges, q: Queue)
    requires Running(sys, st, ct, q, Upto(sys.start.n)) && AddrDone(sys, st)
    requires CopyIndex(sys.copies, ct)
    requires |st.pts| == st.n && forall x: nat :: x < |st.pts| && x !in q.on ==> st.pts[x] == {}
    ensures Running(sys, st, ct, q, {}) && Settled(sys, st, ct, q.on)
  {
    hide Named, Marked, Sound;
    forall s: nat, d: nat | d in Targets(ct, s) ensures s in q.on || EdgeMet(st, sys.start.poisoned, s, d) {
    }
  }

  lemma IndexedIntro(sys: System, gepTo: map<nat, seq<(nat, nat)>>, loadTo: map<nat, seq<nat>>,
                     storeFrom: map<nat, seq<nat>>)
    requires forall s: nat, d: nat, off: nat :: (d, s, off) in sys.geps <==> s in gepTo && (d, off) in gepTo[s]
    requires forall s: nat, d: nat :: (d, s) in sys.loads <==> s in loadTo && d in loadTo[s]
    requires forall s: nat, d: nat :: (d, s) in sys.stores <==> s in storeFrom && d in storeFrom[s]
    ensures Indexed(sys, gepTo, loadTo, storeFrom)
  {
  }

  lemma PopKeeps(sys: System, st: State, ct: Edges, q: Queue, q': Queue, node: nat, cap: nat)
    requires Running(sys, st, ct, q, {}) && |q.work| > 0 && node == q.work[|q.work| - 1] && st.n <= cap
    requires q' == Queue(q.work[..|q.work| - 1], q.on - {node})
    ensures Running(sys, st, ct, q', {node}) && node < st.n == |st.pts|
    ensures Rooms(st, cap, cap) >= 0
  {
    RoomsPositive(st, cap, cap);
    assert node in q.work && q.work == q'.work + [node];
    assert |st.pts| == st.n;
    PopQueue(q, q', node, st.n);
    hide InBounds, Named, Marked, Sound, Later, EdgeMet, Rooms, QueueOk;
    assert q.on + {} <= q'.on + {node};
  }

  lemma PopQueue(q: Queue, q': Queue, node: nat, n: nat)
    requires QueueOk(q, n) && q.work == q'.work + [node] && q'.on == q.on - {node}
    ensures QueueOk(q', n)
  {
    forall x: nat | x in q'.on ensures x in q'.work {
      assert x in q.work && x != node;
    }
    forall x: nat | x in q'.work ensures x < n {
      assert x in q.work;
    }
  }

  /** After a visit the node's constraints are met, unless it has been queued again. */
  lemma VisitDone(sys: System, s: State, ct: Edges, q: Queue, t: State, ct': Edges, q': Queue, node: nat,
                  objs: seq<nat>,
                  cap: nat)
    requires Running(sys, s, ct, q, {}) && |q.work| > 0 && node < |s.pts|
    requires forall o: nat :: o in objs <==> o in s.pts[node]
    requires Midway(sys, s, Queue(q.work[..|q.work| - 1], q.on - {node}), t, ct', q', node, objs, cap)
    requires Extends(ct, ct') && Triggered(sys, t, ct', q', node, objs) && Settled(sys, s, ct, q.on)
    ensures Running(sys, t, ct', q', {}) && t.n <= cap && Settled(sys, t, ct', q'.on)
    ensures Rooms(t, cap, cap) < Rooms(s, cap, cap) ||
            (Rooms(t, cap, cap) == Rooms(s, cap, cap) && |q'.work| < |q.work|)
  {
    RunningReleased(sys, t, ct', q', node, objs);
    hide Running, Rooms, Later, Calm, Covers, Triggered, Extends;
    AddrLater(sys, s, t);
    GepsNext(sys, s, t, q.on, q'.on, ct', q', node, objs);
    LoadsNext(sys, s, t, ct, ct', q.on, q', node, objs);
    StoresNext(sys, s, t, ct, ct', q.on, q', node, objs);
    CopiesNext(sys, ct, ct');
  }

  lemma RunningReleased(sys: System, st: State, ct: Edges, q: Queue, node: nat, objs: seq<nat>)
    requires Running(sys, st, ct, q, {node}) && Triggered(sys, st, ct, q, node, objs)
    ensures Running(sys, st, ct, q, {}) && EdgesSettled(st, sys.start.poisoned, ct, q.on)
  {
    hide InBounds, Named, Marked, Sound, Later, GepAll, Loaded, Stored, EdgeMet;
    forall s: nat, d: nat | d in Targets(ct, s) ensures s in q.on || EdgeMet(st, sys.start.poisoned, s, d) {
    }
  }

  lemma AddrLater(sys: System, s: State, t: State)
    requires AddrDone(sys, s) && Later(s, t)
    ensures AddrDone(sys, t)
  {
  }

  lemma CopiesNext(sys: System, ct: Edges, ct': Edges)
    requires CopiesIn(sys, ct) && Extends(ct, ct')
    ensures CopiesIn(sys, ct')
  {
  }

  /** A target that is new at a node that was not queued is TOP, and the node is stained. */
  lemma OldTarget(s: State, t: State, on: set<nat>, before: set<nat>, x: nat, o: nat)
    requires Calm(s, t, on, before) && Later(s, t) && x < s.n && x !in on && o in t.pts[x]
    ensures o in s.pts[x] || (o == TOP && Stained(t, before, x))
  {
    hide Stained;
  }

  lemma GepsNext(sys: System, s: State, t: State, pend: set<nat>, on: set<nat>, ct: Edges, q: Queue, node: nat,
                 objs: seq<nat>)
    requires GepsSettled(sys, s, pend) && Later(s, t) && Calm(s, t, on, sys.start.poisoned) && pend <= on + {node}
    requires q.on == on
    requires node < |s.pts| && (forall o: nat :: o in objs <==> o in s.pts[node])
    requires Triggered(sys, t, ct, q, node, objs)
    ensures GepsSettled(sys, t, on)
  {
    hide Calm, Stained;
    forall d: nat, x: nat, off: nat | (d, x, off) in sys.geps && x !in on
      ensures x < |t.pts| && GepsMet(t, sys.start.poisoned, d, x, off)
    {
      if x == node {
        assert GepAll(t, d, off, objs);
      }
      forall o: nat | o in t.pts[x] ensures GepDone(t, d, o, off) || (o == TOP && Stained(t, sys.start.poisoned, x)) {
        OldTarget(s, t, on, sys.start.poisoned, x, o);
        if x != node && o in s.pts[x] {
          GepOld(s, t, sys.start.poisoned, d, x, off, o);
        }
      }
    }
  }

  lemma GepOld(s: State, t: State, before: set<nat>, d: nat, x: nat, off: nat, o: nat)
    requires Later(s, t) && x < |s.pts| && GepsMet(s, before, d, x, off) && o in s.pts[x]
    ensures GepDone(t, d, o, off) || (o == TOP && Stained(t, before, x))
  {
    if GepDone(s, d, o, off) {
      GepDoneLater(s, t, d, o, off);
    } else {
      StainedLater(s, t, before, x);
    }
  }

  lemma LoadsNext(sys: System, s: State, t: State, ct: Edges, ct': Edges, pend: set<nat>, q: Queue, node: nat,
                  objs: seq<nat>)
    requires LoadsSettled(sys, s, ct, pend) && Later(s, t) && Calm(s, t, q.on, sys.start.poisoned)
    requires pend <= q.on + {node}
    requires node < |s.pts| && (forall o: nat :: o in objs <==> o in s.pts[node]) && Extends(ct, ct')
    requires Triggered(sys, t, ct', q, node, objs)
    ensures LoadsSettled(sys, t, ct', q.on)
  {
    hide Calm, Stained;
    forall d: nat, x: nat | (d, x) in sys.loads && x !in q.on
      ensures x < |t.pts| && LoadWired(t, sys.start.poisoned, ct', d, x)
    {
      if x == node {
        assert Loaded(ct', d, objs);
      } else {
        assert LoadWired(s, sys.start.poisoned, ct, d, x);
      }
      forall o: nat | o in t.pts[x] ensures d in Targets(ct', o) || (o == TOP && Stained(t, sys.start.poisoned, x)) {
        OldTarget(s, t, q.on, sys.start.poisoned, x, o);
        if Stained(s, sys.start.poisoned, x) {
          StainedLater(s, t, sys.start.poisoned, x);
        }
      }
    }
  }

  lemma StoresNext(sys: System, s: State, t: State, ct: Edges, ct': Edges, pend: set<nat>, q: Queue, node: nat,
                   objs: seq<nat>)
    requires StoresSettled(sys, s, ct, pend) && Later(s, t) && Calm(s, t, q.on, sys.start.poisoned)
    requires pend <= q.on + {node}
    requires node < |s.pts| && (forall o: nat :: o in objs <==> o in s.pts[node]) && Extends(ct, ct')
    requires Triggered(sys, t, ct', q, node, objs)
    ensures StoresSettled(sys, t, ct', q.on)
  {
    hide Calm, Stained;
    forall v: nat, x: nat | (v, x) in sys.stores && x !in q.on
      ensures x < |t.pts| && StoreWired(t, sys.start.poisoned, ct', v, x)
    {
      if x == node {
        assert Stored(ct', v, objs);
      } else {
        assert StoreWired(s, sys.start.poisoned, ct, v, x);
      }
      forall o: nat | o in t.pts[x] ensures o in Targets(ct', v) || (o == TOP && Stained(t, sys.start.poisoned, x)) {
        OldTarget(s, t, q.on, sys.start.poisoned, x, o);
        if Stained(s, sys.start.poisoned, x) {
          StainedLater(s, t, sys.start.poisoned, x);
        }
      }
    }
  }

  /** With nothing waiting, everything is met. */
  lemma Finish(sys: System, st: State, ct: Edges, q: Queue)
    requires Running(sys, st, ct, q, {}) && q.work == [] && Settled(sys, st, ct, q.on)
    ensures Good(st) && Later(sys.start, st) && SolvedBesidesPoison(sys, st)
    ensures NoAnyOffset(sys) ==> Solved(sys, st)
    ensures NoAnyOffset(sys) && Exact(st) ==> Final(sys, st)
  {
    hide Named, Marked;
    assert q.on == {};
    hide Derived, EdgesHold;
    assert Scoped(sys, st.n);
    SettledSolves(sys, st, ct);
    hide Solved, Settled, SolvedBesidesPoison;
    if NoAnyOffset(sys) {
      UnpoisonedSolved(sys, st);
    }
  }

  lemma SettledSolves(sys: System, st: State, ct: Edges)
    requires Settled(sys, st, ct, {}) && Scoped(sys, |st.pts|)
    ensures SolvedBesidesPoison(sys, st)
  {
    hide Scoped, GepsMet, EdgeMet, Stained;
    forall d: nat, s: nat | (d, s) in sys.loads ensures LoadMet(st, sys.start.poisoned, d, s) {
      assert LoadWired(st, sys.start.poisoned, ct, d, s);
    }
    forall v: nat, p: nat | (v, p) in sys.stores ensures StoreMet(st, sys.start.poisoned, v, p) {
      assert StoreWired(st, sys.start.poisoned, ct, v, p);
    }
  }
}
