/**
 The points-to relation as a value: its steps, the constraint system it solves, and least solutions of that system
 (crates/absint/src/pointsto.rs). Cells are numbered as they are created, so solutions are compared through names.
 */
module PointsToRules {
  import opened Wrappers
  import opened Graphs

  const TOP: nat := 0
  const ANY_OFFSET: nat := 0xFFFF_FFFF_FFFF_FFFF
  const MAX_PTS_SET: nat := 64
  const MAX_NODES: nat := 10_000_000

  /** What a node stands for, whatever its number. */
  datatype Loc = Base(id: nat) | Field(obj: Loc, off: nat)

  datatype State = State(n: nat, pts: seq<set<nat>>, cells: map<(nat, nat), nat>,
                         poisoned: set<nat>, saturated: set<nat>, names: seq<Loc>)

  // ------------------------------------------------------------ well-formed states

  ghost predicate InBounds(st: State) {
    && |st.pts| == |st.names| == st.n && 0 < st.n
    && (forall x: nat, o: nat :: x < st.n && o in st.pts[x] ==> o < st.n)
    && (forall o: nat, off: nat :: (o, off) in st.cells ==>
          o < st.n && st.cells[(o, off)] < st.n && o != TOP && off != 0 && off != ANY_OFFSET)
  }

  ghost predicate IsCell(st: State, c: nat) {
    exists o: nat, off: nat :: (o, off) in st.cells && st.cells[(o, off)] == c
  }

  /** Every node has a name of its own, and a cell is named after its object and offset. */
  ghost predicate Named(st: State)
    requires InBounds(st)
  {
    && st.names[TOP] == Base(TOP)
    && (forall o: nat, off: nat :: (o, off) in st.cells ==> st.names[st.cells[(o, off)]] == Field(st.names[o], off))
    && (forall x: nat :: x < st.n ==> st.names[x] == Base(x) || IsCell(st, x))
    && (forall x: nat, y: nat :: x < y < st.n ==> st.names[x] != st.names[y])
  }

  /** A poisoned object and all its cells point to TOP; a saturated node points to nothing else. */
  ghost predicate Marked(st: State)
    requires InBounds(st)
  {
    && (forall o: nat :: o in st.poisoned ==> o < st.n && o != TOP && TOP in st.pts[o])
    && (forall o: nat, off: nat :: (o, off) in st.cells && o in st.poisoned ==> TOP in st.pts[st.cells[(o, off)]])
    && (forall x: nat :: x in st.saturated ==> x < st.n && st.pts[x] == {TOP})
  }

  ghost predicate Good(st: State) {
    InBounds(st) && Named(st) && Marked(st)
  }

  // ------------------------------------------------------------ steps

  /** Put `extra` into the set of `dst`; a set past the cap becomes `{TOP}` for good. */
  ghost function Widen(st: State, dst: nat, extra: set<nat>): State
    requires dst < |st.pts|
  {
    if dst in st.saturated || extra <= st.pts[dst] then st
    else if |st.pts[dst] + extra| > MAX_PTS_SET then
      st.(pts := st.pts[dst := {TOP}], saturated := st.saturated + {dst})
    else st.(pts := st.pts[dst := st.pts[dst] + extra])
  }

  ghost predicate Tainted(st: State, obj: nat, x: nat) {
    x == obj || exists off: nat :: (obj, off) in st.cells && st.cells[(obj, off)] == x
  }

  /** TOP enters the object and every cell of it. */
  ghost function Poisoned(st: State, obj: nat): State
    requires |st.pts| == st.n
  {
    if obj == TOP || obj in st.poisoned then st
    else st.(poisoned := st.poisoned + {obj},
             pts := seq(st.n, x requires 0 <= x < st.n => if Tainted(st, obj, x) then st.pts[x] + {TOP} else st.pts[x]))
  }

  ghost function Fresh(st: State, name: Loc, s: set<nat>): State {
    st.(n := st.n + 1, pts := st.pts + [s], names := st.names + [name])
  }

  ghost function NewCell(st: State, obj: nat, off: nat): State
    requires obj < |st.names|
  {
    var st1 := Fresh(st, Field(st.names[obj], off), if obj in st.poisoned then {TOP} else {});
    st1.(cells := st.cells[(obj, off) := st.n])
  }

  /** The node a field access resolves to, when it exists already or is not to be created. */
  ghost function FieldNode(st: State, obj: nat, off: nat): Option<nat> {
    if obj == TOP then Some(TOP)
    else if off == ANY_OFFSET then Some(TOP)
    else if off == 0 then Some(obj)
    else if (obj, off) in st.cells then Some(st.cells[(obj, off)])
    else if st.n >= MAX_NODES then Some(TOP)
    else None
  }

  ghost function Interned(st: State, obj: nat, off: nat): State
    requires |st.pts| == |st.names| == st.n && obj < st.n
  {
    if off == ANY_OFFSET then Poisoned(st, obj)
    else if FieldNode(st, obj, off).None? then NewCell(st, obj, off)
    else st
  }

  lemma WidenGood(st: State, dst: nat, extra: set<nat>)
    requires Good(st) && dst < st.n && forall o: nat :: o in extra ==> o < st.n
    ensures Good(Widen(st, dst, extra))
  {
    var st' := Widen(st, dst, extra);
    forall x: nat | x < st.n ensures IsCell(st', x) == IsCell(st, x) {
    }
  }

  lemma PoisonedGood(st: State, obj: nat)
    requires Good(st) && obj < st.n
    ensures Good(Poisoned(st, obj))
  {
    var st' := Poisoned(st, obj);
    forall x: nat | x < st.n ensures IsCell(st', x) == IsCell(st, x) {
    }
    if st' != st {
      forall o: nat, off: nat | (o, off) in st.cells && o in st'.poisoned ensures TOP in st'.pts[st.cells[(o, off)]] {
        if o == obj {
          assert Tainted(st, obj, st.cells[(obj, off)]);
        }
      }
    }
  }

  lemma SameNode(st: State, x: nat, y: nat)
    requires Good(st) && x < st.n && y < st.n && st.names[x] == st.names[y]
    ensures x == y
  {
    hide Marked, IsCell;
  }

  /** A node named after a field is the cell of that field. */
  lemma CellOfName(st: State, x: nat, obj: nat, off: nat)
    requires Good(st) && x < st.n && obj < st.n && st.names[x] == Field(st.names[obj], off)
    ensures (obj, off) in st.cells && st.cells[(obj, off)] == x
  {
    var o: nat, b: nat :| (o, b) in st.cells && st.cells[(o, b)] == x;
    SameNode(st, o, obj);
  }

  lemma NewCellNames(st: State, obj: nat, off: nat)
    requires Good(st) && obj < st.n && (obj, off) !in st.cells
    ensures forall x: nat :: x < st.n ==> st.names[x] != Field(st.names[obj], off)
  {
    forall x: nat | x < st.n ensures st.names[x] == Field(st.names[obj], off) ==> (obj, off) in st.cells {
      hide Named, Marked;
      if st.names[x] == Field(st.names[obj], off) {
        CellOfName(st, x, obj, off);
      }
    }
  }

  lemma NewCellGood(st: State, obj: nat, off: nat)
    requires Good(st) && obj < st.n && obj != TOP && off != 0 && off != ANY_OFFSET && (obj, off) !in st.cells
    ensures Good(NewCell(st, obj, off))
  {
    var st' := NewCell(st, obj, off);
    NewCellNames(st, obj, off);
    assert st'.cells[(obj, off)] == st.n;
    assert IsCell(st', st.n);
    forall x: nat | x < st.n && IsCell(st, x) ensures IsCell(st', x) {
      var o: nat, b: nat :| (o, b) in st.cells && st.cells[(o, b)] == x;
      assert (o, b) in st'.cells && st'.cells[(o, b)] == x;
    }
  }

  lemma InternedGood(st: State, obj: nat, off: nat)
    requires Good(st) && obj < st.n
    ensures Good(Interned(st, obj, off))
    ensures FieldNode(Interned(st, obj, off), obj, off).Some?
    ensures FieldNode(Interned(st, obj, off), obj, off).value < Interned(st, obj, off).n
  {
    if off == ANY_OFFSET {
      PoisonedGood(st, obj);
    } else if FieldNode(st, obj, off).None? {
      NewCellGood(st, obj, off);
    }
  }

  // ------------------------------------------------------------ growth

  /** States only grow: nodes, cells and marks stay, and a set shrinks only by becoming saturated. */
  ghost predicate Later(s: State, t: State) {
    && s.n <= t.n && |s.pts| == |s.names| == s.n && |t.pts| == |t.names| == t.n
    && s.names <= t.names
    && (forall o: nat, off: nat :: (o, off) in s.cells ==>
        (o, off) in t.cells && t.cells[(o, off)] == s.cells[(o, off)])
    && s.saturated <= t.saturated && s.poisoned <= t.poisoned
    && (forall x: nat :: x < s.n ==> x in t.saturated || s.pts[x] <= t.pts[x])
    && (s.n >= MAX_NODES ==> t.n == s.n && t.cells == s.cells)
  }

  /** Only nodes waiting in the worklist have changed. */
  ghost predicate Quiet(s: State, t: State, on: set<nat>) {
    s.n <= |s.pts| && s.n <= |t.pts| && forall x: nat :: x < s.n && x !in on ==> t.pts[x] == s.pts[x]
  }

  /** The node, or the object it is a cell of, was poisoned after `before` was all that was poisoned. */
  ghost predicate Stained(st: State, before: set<nat>, x: nat) {
    exists o: nat :: o in st.poisoned && o !in before && Tainted(st, o, x)
  }

  /** Only waiting nodes have changed, but for TOP put into stained ones. */
  ghost predicate Calm(s: State, t: State, on: set<nat>, before: set<nat>) {
    && s.n <= |s.pts| && s.n <= |t.pts|
    && forall x: nat :: x < s.n && x !in on ==>
         t.pts[x] == s.pts[x] || (t.pts[x] == s.pts[x] + {TOP} && Stained(t, before, x))
  }

  lemma StainedLater(s: State, t: State, before: set<nat>, x: nat)
    requires Later(s, t) && Stained(s, before, x)
    ensures Stained(t, before, x)
  {
    var o: nat :| o in s.poisoned && o !in before && Tainted(s, o, x);
    assert Tainted(t, o, x);
  }

  lemma QuietCalm(s: State, t: State, on: set<nat>, before: set<nat>)
    requires Quiet(s, t, on)
    ensures Calm(s, t, on, before)
  {
  }

  lemma CalmTrans(s: State, t: State, u: State, on: set<nat>, on': set<nat>, before: set<nat>)
    requires Later(s, t) && Later(t, u) && Calm(s, t, on, before) && Calm(t, u, on', before) && on <= on'
    ensures Calm(s, u, on', before)
  {
    hide Stained;
    forall x: nat | x < s.n && x !in on'
      ensures u.pts[x] == s.pts[x] || (u.pts[x] == s.pts[x] + {TOP} && Stained(u, before, x))
    {
      if t.pts[x] != s.pts[x] {
        StainedLater(t, u, before, x);
      }
    }
  }

  /** Poison reaches nodes without queueing them, but these are stained from then on. */
  lemma InternedCalm(st: State, obj: nat, off: nat, on: set<nat>, before: set<nat>)
    requires Good(st) && obj < st.n && before <= st.poisoned
    ensures Calm(st, Interned(st, obj, off), on, before)
  {
    var t := Interned(st, obj, off);
    if off == ANY_OFFSET && obj != TOP && obj !in st.poisoned {
      forall x: nat | x < st.n && t.pts[x] != st.pts[x]
        ensures t.pts[x] == st.pts[x] + {TOP} && Stained(t, before, x)
      {
        assert Tainted(st, obj, x);
        assert Tainted(t, obj, x) && obj in t.poisoned;
      }
    }
  }

  lemma LaterTrans(s: State, t: State, u: State)
    requires Later(s, t) && Later(t, u)
    ensures Later(s, u)
  {
    forall x: nat | x < s.n ensures x in u.saturated || s.pts[x] <= u.pts[x] {
      assert x in t.saturated || s.pts[x] <= t.pts[x];
      assert x in u.saturated || t.pts[x] <= u.pts[x];
    }
  }

  lemma WidenLater(st: State, dst: nat, extra: set<nat>, on: set<nat>)
    requires Good(st) && dst < st.n
    ensures Later(st, Widen(st, dst, extra))
    ensures Widen(st, dst, extra) != st ==> dst in on ==> Quiet(st, Widen(st, dst, extra), on)
    ensures Widen(st, dst, extra) == st ==> Quiet(st, Widen(st, dst, extra), on)
    ensures dst in Widen(st, dst, extra).saturated || extra <= Widen(st, dst, extra).pts[dst]
  {
  }

  lemma InternedLater(st: State, obj: nat, off: nat, on: set<nat>)
    requires Good(st) && obj < st.n
    ensures Later(st, Interned(st, obj, off))
    ensures off != ANY_OFFSET ==> Quiet(st, Interned(st, obj, off), on)
  {
  }

  // ------------------------------------------------------------ termination measure

  /** Room left at a node: none once saturated, most before it exists. */
  ghost function Room(st: State, cap: nat, x: nat): int {
    if x >= |st.pts| then cap + 2
    else if x in st.saturated then 0
    else cap + 1 - |st.pts[x]|
  }

  ghost function Rooms(st: State, cap: nat, k: nat): int {
    if k == 0 then 0 else Rooms(st, cap, k - 1) + Room(st, cap, k - 1)
  }

  lemma {:induction false} RoomsFall(s: State, t: State, cap: nat, k: nat)
    requires forall x: nat :: x < k ==> Room(t, cap, x) <= Room(s, cap, x)
    ensures Rooms(t, cap, k) <= Rooms(s, cap, k)
    ensures (exists x: nat :: x < k && Room(t, cap, x) < Room(s, cap, x)) ==> Rooms(t, cap, k) < Rooms(s, cap, k)
  {
    if k > 0 {
      RoomsFall(s, t, cap, k - 1);
    }
  }

  lemma RoomPositive(st: State, cap: nat, x: nat)
    requires InBounds(st) && st.n <= cap
    ensures Room(st, cap, x) >= 0
    ensures x < st.n && x !in st.saturated ==> Room(st, cap, x) >= 1
  {
    if x < st.n {
      SeenBounded(st.n, st.pts[x]);
    }
  }

  lemma {:induction false} RoomsPositive(st: State, cap: nat, k: nat)
    requires InBounds(st) && st.n <= cap
    ensures Rooms(st, cap, k) >= 0
  {
    if k > 0 {
      RoomsPositive(st, cap, k - 1);
      RoomPositive(st, cap, k - 1);
    }
  }

  lemma BiggerSet(a: set<nat>, b: set<nat>)
    requires a < b
    ensures |a| < |b|
  {
    assert b == a + (b - a);
  }

  lemma WidenRooms(st: State, dst: nat, extra: set<nat>, cap: nat)
    requires Good(st) && dst < st.n <= cap && forall o: nat :: o in extra ==> o < st.n
    ensures Rooms(Widen(st, dst, extra), cap, cap) <= Rooms(st, cap, cap)
    ensures Widen(st, dst, extra) != st ==> Rooms(Widen(st, dst, extra), cap, cap) < Rooms(st, cap, cap)
  {
    var t := Widen(st, dst, extra);
    if t != st {
      RoomPositive(st, cap, dst);
      BiggerSet(st.pts[dst], st.pts[dst] + extra);
      assert Room(t, cap, dst) < Room(st, cap, dst);
      forall x: nat | x < cap && x != dst ensures Room(t, cap, x) == Room(st, cap, x) {
      }
      RoomsFall(st, t, cap, cap);
    }
  }

  lemma InternedRooms(st: State, obj: nat, off: nat, cap: nat)
    requires Good(st) && obj < st.n <= cap && MAX_NODES <= cap
    ensures Interned(st, obj, off).n <= cap
    ensures Rooms(Interned(st, obj, off), cap, cap) <= Rooms(st, cap, cap)
  {
    var t := Interned(st, obj, off);
    forall x: nat | x < cap ensures Room(t, cap, x) <= Room(st, cap, x) {
      if x < st.n && t.pts[x] != st.pts[x] {
        BiggerSet(st.pts[x], t.pts[x]);
      }
    }
    RoomsFall(st, t, cap, cap);
  }

  // ------------------------------------------------------------ constraints and their solutions

  /** The constraints, and the relation as it stands before solving. */
  datatype System = System(addr: seq<(nat, nat)>, copies: seq<(nat, nat)>, geps: seq<(nat, nat, nat)>,
                           loads: seq<(nat, nat)>, stores: seq<(nat, nat)>, start: State)

  ghost predicate Scoped(sys: System, n: nat) {
    && (forall p: nat, o: nat :: (p, o) in sys.addr ==> p < n && o < n)
    && (forall d: nat, s: nat :: (d, s) in sys.copies ==> d < n && s < n)
    && (forall d: nat, s: nat, off: nat :: (d, s, off) in sys.geps ==> d < n && s < n)
    && (forall d: nat, s: nat :: (d, s) in sys.loads ==> d < n && s < n)
    && (forall v: nat, p: nat :: (v, p) in sys.stores ==> v < n && p < n)
  }

  ghost predicate NoAnyOffset(sys: System) {
    forall d: nat, s: nat, off: nat :: (d, s, off) in sys.geps ==> off != ANY_OFFSET
  }

  /** A field of TOP is TOP, and the field at offset 0 is the object itself. */
  function Access(l: Loc, off: nat): Loc {
    if l == Base(TOP) || off == 0 then l else Field(l, off)
  }

  /** A candidate points-to relation over names: the pair `(a, b)` says `a` may point to `b`. */
  type Facts = iset<(Loc, Loc)>

  ghost predicate Includes(p: Facts, a: Loc, b: Loc) {
    forall l: Loc :: (b, l) in p ==> (a, l) in p
  }

  ghost predicate LoadHolds(p: Facts, d: Loc, s: Loc) {
    forall l: Loc :: (s, l) in p ==> Includes(p, d, l)
  }

  ghost predicate StoreHolds(p: Facts, v: Loc, ptr: Loc) {
    forall l: Loc :: (ptr, l) in p ==> Includes(p, l, v)
  }

  ghost predicate GepHolds(p: Facts, d: Loc, s: Loc, off: nat) {
    forall l: Loc :: (s, l) in p ==> (d, Access(l, off)) in p
  }

  /** `p` extends the starting relation and satisfies every constraint. */
  ghost predicate Closed(sys: System, p: Facts)
    requires Scoped(sys, sys.start.n) && Good(sys.start)
  {
    var nm := sys.start.names;
    && (forall x: nat, o: nat :: x < sys.start.n && o in sys.start.pts[x] ==> (nm[x], nm[o]) in p)
    && (forall o: nat, off: nat :: o in sys.start.poisoned ==> (Field(nm[o], off), Base(TOP)) in p)
    && (forall q: nat, o: nat :: (q, o) in sys.addr ==> (nm[q], nm[o]) in p)
    && (forall d: nat, s: nat :: (d, s) in sys.copies ==> Includes(p, nm[d], nm[s]))
    && (forall d: nat, s: nat, off: nat :: (d, s, off) in sys.geps ==> GepHolds(p, nm[d], nm[s], off))
    && (forall d: nat, s: nat :: (d, s) in sys.loads ==> LoadHolds(p, nm[d], nm[s]))
    && (forall v: nat, q: nat :: (v, q) in sys.stores ==> StoreHolds(p, nm[v], nm[q]))
  }

  ghost predicate Below(st: State, p: Facts)
    requires InBounds(st)
  {
    forall x: nat, o: nat :: x < st.n && o in st.pts[x] ==> (st.names[x], st.names[o]) in p
  }

  /** Nothing in the state goes beyond what every solution contains. */
  ghost predicate Derived(sys: System, st: State)
    requires Scoped(sys, sys.start.n) && Good(sys.start) && InBounds(st)
  {
    && st.poisoned == sys.start.poisoned && sys.start.names <= st.names
    && forall p: Facts :: Closed(sys, p) ==> Below(st, p)
  }

  /** Every solution carries all of `s` over to `d`. */
  ghost predicate EdgeHolds(sys: System, st: State, s: nat, d: nat)
    requires Scoped(sys, sys.start.n) && Good(sys.start) && InBounds(st)
  {
    s < st.n && d < st.n && forall p: Facts :: Closed(sys, p) ==> Includes(p, st.names[d], st.names[s])
  }

  /** No cap was met: no set was collapsed and the node budget was not reached. */
  ghost predicate Exact(st: State) {
    st.saturated == {} && st.n < MAX_NODES
  }

  lemma LaterExact(s: State, t: State)
    requires Later(s, t) && Exact(t)
    ensures Exact(s)
  {
  }

  lemma DerivedUnion(sys: System, st: State, s: nat, d: nat)
    requires Scoped(sys, sys.start.n) && Good(sys.start) && Good(st)
    requires Derived(sys, st) && EdgeHolds(sys, st, s, d) && Exact(Widen(st, d, st.pts[s]))
    ensures InBounds(Widen(st, d, st.pts[s])) && Derived(sys, Widen(st, d, st.pts[s]))
  {
    WidenGood(st, d, st.pts[s]);
    var t := Widen(st, d, st.pts[s]);
    forall p: Facts | Closed(sys, p) ensures Below(t, p) {
      assert Below(st, p) && Includes(p, st.names[d], st.names[s]);
      hide Closed;
    }
  }

  lemma DerivedAddr(sys: System, st: State, q: nat, o: nat)
    requires Scoped(sys, sys.start.n) && Good(sys.start) && Good(st) && (q, o) in sys.addr && sys.start.n <= st.n
    requires Derived(sys, st) && Exact(Widen(st, q, {o}))
    ensures InBounds(Widen(st, q, {o})) && Derived(sys, Widen(st, q, {o}))
  {
    WidenGood(st, q, {o});
    var t := Widen(st, q, {o});
    forall p: Facts | Closed(sys, p) ensures Below(t, p) {
      assert Below(st, p);
      assert (st.names[q], st.names[o]) in p;
      hide Closed;
    }
  }

  /** The name of the node a field access resolves to, below the node cap. */
  lemma FieldName(st: State, o: nat, off: nat)
    requires Good(st) && o < st.n && st.n < MAX_NODES && off != ANY_OFFSET && FieldNode(st, o, off).Some?
    ensures FieldNode(st, o, off).value < st.n && st.names[FieldNode(st, o, off).value] == Access(st.names[o], off)
  {
  }

  lemma DerivedGep(sys: System, st: State, d: nat, s: nat, off: nat, o: nat)
    requires Scoped(sys, sys.start.n) && Good(sys.start) && Good(st) && (d, s, off) in sys.geps && sys.start.n <= st.n
    requires off != ANY_OFFSET && o in st.pts[s] && FieldNode(st, o, off).Some?
    requires Derived(sys, st) && Exact(Widen(st, d, {FieldNode(st, o, off).value}))
    ensures InBounds(Widen(st, d, {FieldNode(st, o, off).value}))
    ensures Derived(sys, Widen(st, d, {FieldNode(st, o, off).value}))
  {
    var c := FieldNode(st, o, off).value;
    FieldName(st, o, off);
    WidenGood(st, d, {c});
    var t := Widen(st, d, {c});
    forall p: Facts | Closed(sys, p) ensures Below(t, p) {
      assert Below(st, p) && GepHolds(p, st.names[d], st.names[s], off);
      hide Closed;
      assert (st.names[s], st.names[o]) in p;
    }
  }

  lemma DerivedIntern(sys: System, st: State, o: nat, off: nat)
    requires Scoped(sys, sys.start.n) && Good(sys.start) && Good(st) && o < st.n && off != ANY_OFFSET
    requires Derived(sys, st) && o < st.n
    ensures InBounds(Interned(st, o, off)) && Derived(sys, Interned(st, o, off))
  {
    InternedGood(st, o, off);
    var t := Interned(st, o, off);
    forall p: Facts | Closed(sys, p) ensures Below(t, p) {
      assert Below(st, p);
      assert o in st.poisoned ==> st.names[o] == sys.start.names[o] && (Field(st.names[o], off), Base(TOP)) in p;
      hide Closed;
    }
  }

  lemma LoadEdge(sys: System, st: State, d: nat, s: nat, o: nat)
    requires Scoped(sys, sys.start.n) && Good(sys.start) && Good(st) && (d, s) in sys.loads && sys.start.n <= st.n
    requires Derived(sys, st) && o in st.pts[s]
    ensures EdgeHolds(sys, st, o, d)
  {
    forall p: Facts | Closed(sys, p) ensures Includes(p, st.names[d], st.names[o]) {
      assert Below(st, p) && LoadHolds(p, st.names[d], st.names[s]);
      hide Closed;
      assert (st.names[s], st.names[o]) in p;
    }
  }

  lemma StoreEdge(sys: System, st: State, v: nat, q: nat, o: nat)
    requires Scoped(sys, sys.start.n) && Good(sys.start) && Good(st) && (v, q) in sys.stores && sys.start.n <= st.n
    requires Derived(sys, st) && o in st.pts[q]
    ensures EdgeHolds(sys, st, v, o)
  {
    forall p: Facts | Closed(sys, p) ensures Includes(p, st.names[o], st.names[v]) {
      assert Below(st, p) && StoreHolds(p, st.names[v], st.names[q]);
      hide Closed;
      assert (st.names[q], st.names[o]) in p;
    }
  }

  lemma CopyEdge(sys: System, st: State, d: nat, s: nat)
    requires Scoped(sys, sys.start.n) && Good(sys.start) && Good(st) && (d, s) in sys.copies && sys.start.n <= st.n
    requires sys.start.names <= st.names
    ensures EdgeHolds(sys, st, s, d)
  {
    forall p: Facts | Closed(sys, p) ensures Includes(p, st.names[d], st.names[s]) {
      assert Includes(p, sys.start.names[d], sys.start.names[s]);
      hide Closed;
    }
  }

  lemma EdgeHoldsLater(sys: System, s: State, t: State, x: nat, y: nat)
    requires Scoped(sys, sys.start.n) && Good(sys.start) && InBounds(s) && InBounds(t)
    requires EdgeHolds(sys, s, x, y) && Later(s, t)
    ensures EdgeHolds(sys, t, x, y)
  {
    hide Closed, Includes;
  }

  // ------------------------------------------------------------ fixpoints

  /** The copy edge `s -> d` has nothing left to carry. */
  ghost predicate EdgeDone(st: State, s: nat, d: nat) {
    s < |st.pts| && d < |st.pts| && (d in st.saturated || st.pts[s] <= st.pts[d])
  }

  ghost predicate GepDone(st: State, d: nat, o: nat, off: nat) {
    && FieldNode(st, o, off).Some? && d < |st.pts|
    && (d in st.saturated || FieldNode(st, o, off).value in st.pts[d])
  }

  ghost predicate GepsDone(st: State, d: nat, s: nat, off: nat)
    requires s < |st.pts|
  {
    forall o: nat :: o in st.pts[s] ==> GepDone(st, d, o, off)
  }

  ghost predicate LoadDone(st: State, d: nat, s: nat)
    requires s < |st.pts|
  {
    forall o: nat :: o in st.pts[s] ==> EdgeDone(st, o, d)
  }

  ghost predicate StoreDone(st: State, v: nat, p: nat)
    requires p < |st.pts|
  {
    forall o: nat :: o in st.pts[p] ==> EdgeDone(st, v, o)
  }

  /** Every constraint is met, except where its target has been saturated. */
  ghost predicate Solved(sys: System, st: State) {
    && Scoped(sys, |st.pts|)
    && (forall p: nat, o: nat :: (p, o) in sys.addr ==> p in st.saturated || o in st.pts[p])
    && (forall d: nat, s: nat :: (d, s) in sys.copies ==> EdgeDone(st, s, d))
    && (forall d: nat, s: nat, off: nat :: (d, s, off) in sys.geps ==> GepsDone(st, d, s, off))
    && (forall d: nat, s: nat :: (d, s) in sys.loads ==> LoadDone(st, d, s))
    && (forall v: nat, p: nat :: (v, p) in sys.stores ==> StoreDone(st, v, p))
  }

  /** The copy edge `s -> d` has nothing left to carry but TOP out of a stained node. */
  ghost predicate EdgeMet(st: State, before: set<nat>, s: nat, d: nat) {
    EdgeDone(st, s, d) || (s < |st.pts| && d < |st.pts| && Stained(st, before, s) && st.pts[s] - {TOP} <= st.pts[d])
  }

  ghost predicate GepsMet(st: State, before: set<nat>, d: nat, s: nat, off: nat)
    requires s < |st.pts|
  {
    forall o: nat :: o in st.pts[s] ==> GepDone(st, d, o, off) || (o == TOP && Stained(st, before, s))
  }

  ghost predicate LoadMet(st: State, before: set<nat>, d: nat, s: nat)
    requires s < |st.pts|
  {
    forall o: nat :: o in st.pts[s] ==> EdgeMet(st, before, o, d) || (o == TOP && Stained(st, before, s))
  }

  ghost predicate StoreMet(st: State, before: set<nat>, v: nat, p: nat)
    requires p < |st.pts|
  {
    forall o: nat :: o in st.pts[p] ==> EdgeMet(st, before, v, o) || (o == TOP && Stained(st, before, p))
  }

  /**
   Every constraint is met, except where its destination has been saturated, for
   all targets but one: TOP, at a node that was poisoned since the start, itself
   or as a cell.
   */
  ghost predicate SolvedBesidesPoison(sys: System, st: State) {
    && Scoped(sys, |st.pts|)
    && (forall p: nat, o: nat :: (p, o) in sys.addr ==> p in st.saturated || o in st.pts[p])
    && (forall d: nat, s: nat :: (d, s) in sys.copies ==> EdgeMet(st, sys.start.poisoned, s, d))
    && (forall d: nat, s: nat, off: nat :: (d, s, off) in sys.geps ==> GepsMet(st, sys.start.poisoned, d, s, off))
    && (forall d: nat, s: nat :: (d, s) in sys.loads ==> LoadMet(st, sys.start.poisoned, d, s))
    && (forall v: nat, p: nat :: (v, p) in sys.stores ==> StoreMet(st, sys.start.poisoned, v, p))
  }

  lemma NothingStained(st: State, before: set<nat>, x: nat)
    requires st.poisoned == before
    ensures !Stained(st, before, x)
  {
  }

  /** When nothing was poisoned on the way, every constraint is met. */
  lemma UnpoisonedSolved(sys: System, st: State)
    requires SolvedBesidesPoison(sys, st) && st.poisoned == sys.start.poisoned
    ensures Solved(sys, st)
  {
    forall x: nat ensures !Stained(st, sys.start.poisoned, x) {
      NothingStained(st, sys.start.poisoned, x);
    }
    hide Stained, EdgeDone, GepDone, Scoped;
    forall d: nat, s: nat | (d, s) in sys.loads ensures LoadDone(st, d, s) {
      assert LoadMet(st, sys.start.poisoned, d, s);
    }
    forall v: nat, p: nat | (v, p) in sys.stores ensures StoreDone(st, v, p) {
      assert StoreMet(st, sys.start.poisoned, v, p);
    }
    forall d: nat, s: nat, off: nat | (d, s, off) in sys.geps ensures GepsDone(st, d, s, off) {
      assert GepsMet(st, sys.start.poisoned, d, s, off);
    }
  }

  ghost predicate NodeFact(st: State, a: Loc, b: Loc)
    requires InBounds(st)
  {
    exists x: nat, o: nat :: x < st.n && o in st.pts[x] && st.names[x] == a && st.names[o] == b
  }

  ghost predicate PoisonFact(st: State, a: Loc, b: Loc)
    requires InBounds(st)
  {
    b == Base(TOP) && exists o: nat, off: nat :: o in st.poisoned && o < st.n && a == Field(st.names[o], off)
  }

  /** What a state says, with nodes read as their names; cells never created count for poisoned objects. */
  ghost function Meaning(st: State): Facts
    requires InBounds(st)
  {
    iset f: (Loc, Loc) | NodeFact(st, f.0, f.1) || PoisonFact(st, f.0, f.1)
  }

  /** A fact about an existing node is in that node's set. */
  lemma FactOfNode(st: State, x: nat, b: Loc) returns (o: nat)
    requires Good(st) && x < st.n && (st.names[x], b) in Meaning(st)
    ensures o in st.pts[x] && o < st.n && st.names[o] == b
  {
    if PoisonFact(st, st.names[x], b) {
      o := TOP;
      var q: nat, off: nat :| q in st.poisoned && q < st.n && st.names[x] == Field(st.names[q], off);
      PoisonedCell(st, x, q, off);
    } else {
      var y: nat, c: nat :| y < st.n && c in st.pts[y] && st.names[y] == st.names[x] && st.names[c] == b;
      SameNode(st, x, y);
      o := c;
    }
  }

  /** The node named as a cell of a poisoned object points to TOP. */
  lemma PoisonedCell(st: State, x: nat, q: nat, off: nat)
    requires Good(st) && x < st.n && q in st.poisoned && q < st.n && st.names[x] == Field(st.names[q], off)
    ensures TOP in st.pts[x]
  {
    CellOfName(st, x, q, off);
  }

  lemma FactIn(st: State, x: nat, o: nat)
    requires InBounds(st) && x < st.n && o in st.pts[x]
    ensures o < st.n && (st.names[x], st.names[o]) in Meaning(st)
  {
    assert NodeFact(st, st.names[x], st.names[o]);
  }

  lemma DoneIncludes(st: State, s: nat, d: nat)
    requires Good(st) && st.saturated == {} && EdgeDone(st, s, d)
    ensures Includes(Meaning(st), st.names[d], st.names[s])
  {
    forall l: Loc | (st.names[s], l) in Meaning(st) ensures (st.names[d], l) in Meaning(st) {
      var o := FactOfNode(st, s, l);
      FactIn(st, d, o);
    }
  }

  lemma DoneGep(st: State, d: nat, s: nat, off: nat)
    requires Good(st) && Exact(st) && d < st.n && s < st.n && off != ANY_OFFSET && GepsDone(st, d, s, off)
    ensures GepHolds(Meaning(st), st.names[d], st.names[s], off)
  {
    forall l: Loc | (st.names[s], l) in Meaning(st) ensures (st.names[d], Access(l, off)) in Meaning(st) {
      var o := FactOfNode(st, s, l);
      assert GepDone(st, d, o, off);
      FieldName(st, o, off);
      FactIn(st, d, FieldNode(st, o, off).value);
    }
  }

  lemma DoneLoad(st: State, d: nat, s: nat)
    requires Good(st) && st.saturated == {} && s < st.n && d < st.n && LoadDone(st, d, s)
    ensures LoadHolds(Meaning(st), st.names[d], st.names[s])
  {
    forall l: Loc | (st.names[s], l) in Meaning(st) ensures Includes(Meaning(st), st.names[d], l) {
      var o := FactOfNode(st, s, l);
      assert EdgeDone(st, o, d);
      DoneIncludes(st, o, d);
    }
  }

  lemma DoneStore(st: State, v: nat, p: nat)
    requires Good(st) && st.saturated == {} && v < st.n && p < st.n && StoreDone(st, v, p)
    ensures StoreHolds(Meaning(st), st.names[v], st.names[p])
  {
    forall l: Loc | (st.names[p], l) in Meaning(st) ensures Includes(Meaning(st), l, st.names[v]) {
      var o := FactOfNode(st, p, l);
      assert EdgeDone(st, v, o);
      DoneIncludes(st, v, o);
    }
  }

  /** The solver's final state: grown from the start, and a fixpoint made only of derived facts. */
  ghost predicate Final(sys: System, st: State) {
    && Scoped(sys, sys.start.n) && Good(sys.start) && Good(st) && Later(sys.start, st)
    && NoAnyOffset(sys) && Exact(st) && Solved(sys, st) && Derived(sys, st)
  }

  lemma MeaningCloses(sys: System, st: State)
    requires Final(sys, st)
    ensures Closed(sys, Meaning(st))
  {
    var p, nm := Meaning(st), sys.start.names;
    hide Named, Marked, Derived, NodeFact, PoisonFact, Meaning, Includes, GepHolds, LoadHolds, StoreHolds, EdgeDone,
      GepsDone, LoadDone, StoreDone, Closed, IsCell;
    MeaningStarts(sys, st);
    forall q: nat, o: nat | (q, o) in sys.addr ensures (nm[q], nm[o]) in p {
      FactIn(st, q, o);
    }
    forall d: nat, s: nat | (d, s) in sys.copies ensures Includes(p, nm[d], nm[s]) {
      DoneIncludes(st, s, d);
    }
    forall d: nat, s: nat, off: nat | (d, s, off) in sys.geps ensures GepHolds(p, nm[d], nm[s], off) {
      DoneGep(st, d, s, off);
    }
    forall d: nat, s: nat | (d, s) in sys.loads ensures LoadHolds(p, nm[d], nm[s]) {
      DoneLoad(st, d, s);
    }
    forall v: nat, q: nat | (v, q) in sys.stores ensures StoreHolds(p, nm[v], nm[q]) {
      DoneStore(st, v, q);
    }
    ClosedIntro(sys, p);
  }

  lemma ClosedIntro(sys: System, p: Facts)
    requires Scoped(sys, sys.start.n) && Good(sys.start)
    requires forall x: nat, o: nat :: x < sys.start.n && o in sys.start.pts[x] ==>
               (sys.start.names[x], sys.start.names[o]) in p
    requires forall o: nat, off: nat :: o in sys.start.poisoned ==> (Field(sys.start.names[o], off), Base(TOP)) in p
    requires forall q: nat, o: nat :: (q, o) in sys.addr ==> (sys.start.names[q], sys.start.names[o]) in p
    requires forall d: nat, s: nat :: (d, s) in sys.copies ==> Includes(p, sys.start.names[d], sys.start.names[s])
    requires forall d: nat, s: nat, off: nat :: (d, s, off) in sys.geps ==>
               GepHolds(p, sys.start.names[d], sys.start.names[s], off)
    requires forall d: nat, s: nat :: (d, s) in sys.loads ==> LoadHolds(p, sys.start.names[d], sys.start.names[s])
    requires forall v: nat, q: nat :: (v, q) in sys.stores ==> StoreHolds(p, sys.start.names[v], sys.start.names[q])
    ensures Closed(sys, p)
  {
    hide Includes, GepHolds, LoadHolds, StoreHolds, Named, Marked;
  }

  lemma MeaningStarts(sys: System, st: State)
    requires Final(sys, st)
    ensures forall x: nat, o: nat :: x < sys.start.n && o in sys.start.pts[x] ==>
              (sys.start.names[x], sys.start.names[o]) in Meaning(st)
    ensures forall o: nat, off: nat :: o in sys.start.poisoned ==>
              (Field(sys.start.names[o], off), Base(TOP)) in Meaning(st)
  {
    hide Solved, Closed;
    forall x: nat, o: nat | x < sys.start.n && o in sys.start.pts[x]
      ensures (sys.start.names[x], sys.start.names[o]) in Meaning(st)
    {
      FactIn(st, x, o);
    }
    forall o: nat, off: nat | o in sys.start.poisoned
      ensures (Field(sys.start.names[o], off), Base(TOP)) in Meaning(st)
    {
      assert PoisonFact(st, Field(st.names[o], off), Base(TOP));
    }
  }

  /**
   The solver's result is the least solution of the constraints, field cells
   found on the way included.
   */
  lemma LeastSolution(sys: System, st: State, p: Facts)
    requires Final(sys, st)
    ensures Closed(sys, Meaning(st))
    ensures Closed(sys, p) ==> Meaning(st) <= p
  {
    MeaningCloses(sys, st);
    if Closed(sys, p) {
      assert Below(st, p);
      forall f | f in Meaning(st) ensures f in p {
        if NodeFact(st, f.0, f.1) {
          assert f == (f.0, f.1);
        } else {
          var o: nat, off: nat :| o in st.poisoned && o < st.n && f.0 == Field(st.names[o], off);
          assert f == (Field(sys.start.names[o], off), Base(TOP));
        }
      }
    }
  }

  lemma SameMeaning(sys: System, st1: State, st2: State)
    requires Final(sys, st1) && Final(sys, st2)
    ensures Meaning(st1) == Meaning(st2)
  {
    LeastSolution(sys, st1, Meaning(st2));
    LeastSolution(sys, st2, Meaning(st1));
  }

  lemma SharedAnswer(sys: System, st1: State, st2: State, x: nat, o1: nat) returns (o2: nat)
    requires Final(sys, st1) && Final(sys, st2) && x < sys.start.n && o1 in st1.pts[x]
    ensures o1 < st1.n && x < st2.n && o2 in st2.pts[x] && o2 < st2.n && st2.names[o2] == st1.names[o1]
    ensures o1 < sys.start.n ==> o2 == o1
  {
    SameMeaning(sys, st1, st2);
    FactIn(st1, x, o1);
    o2 := FactOfNode(st2, x, st1.names[o1]);
    hide Solved, Derived, Meaning;
    if o1 < sys.start.n {
      SameNode(st2, o2, o1);
    }
  }

  /** Whatever order the worklist ran in, a node has one and the same single target, up to the numbering of cells. */
  lemma OrderIrrelevant(sys: System, st1: State, st2: State, x: nat, o: nat)
    requires Final(sys, st1) && Final(sys, st2) && x < sys.start.n
    requires x < st1.n && st1.pts[x] == {o}
    ensures o < st1.n && x < st2.n
    ensures exists o': nat :: o' < st2.n && st2.pts[x] == {o'} && st2.names[o'] == st1.names[o]
    ensures o < sys.start.n ==> st2.pts[x] == {o}
  {
    assert o in st1.pts[x];
    var o' := SharedAnswer(sys, st1, st2, x, o);
    forall c | c in st2.pts[x] ensures c == o' {
      var back := SharedAnswer(sys, st2, st1, x, c);
      assert back == o && st2.names[c] == st2.names[o'];
      assert InBounds(st2) && Named(st2);
    }
    assert st2.pts[x] == {o'};
  }

  // ------------------------------------------------------------ unknown offsets

  /** The step touches no node that exists: exactly when it does not newly mark anything with TOP. */
  lemma InternQuietExactly(st: State, obj: nat, off: nat)
    requires Good(st) && obj < st.n
    ensures Quiet(st, Interned(st, obj, off), {}) <==>
            off != ANY_OFFSET || obj == TOP || obj in st.poisoned ||
            forall x: nat :: x < st.n && Tainted(st, obj, x) ==> TOP in st.pts[x]
  {
    if off == ANY_OFFSET && obj != TOP && obj !in st.poisoned {
      var t := Poisoned(st, obj);
      forall x: nat | x < st.n ensures t.pts[x] == st.pts[x] <==> Tainted(st, obj, x) ==> TOP in st.pts[x] {
        if Tainted(st, obj, x) {
          assert TOP in t.pts[x];
          assert TOP in st.pts[x] ==> st.pts[x] + {TOP} == st.pts[x];
        }
      }
      hide Named, Marked, Tainted, Poisoned;
    }
  }
}
