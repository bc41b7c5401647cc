/**
 What solving leaves undone when unknown offsets occur: an object is given TOP
 without being queued, so a load from it that was wired before is never served
 again (crates/absint/src/pointsto.rs:201-212, 266-349).
 */
module PoisonMissed {
  import opened Wrappers
  import opened PointsToRules
  import opened PointsToSteps
  import opened PointsTo

  // ------------------------------------------------------------ what is unmet, exactly

  /** Everything that TOP in the set of `x` calls for has been done. */
  ghost predicate TopServed(sys: System, st: State, x: nat) {
    && (forall d: nat, s: nat :: (d, s) in sys.copies && s == x ==> HasTop(st, d))
    && (forall d: nat, s: nat, off: nat :: (d, s, off) in sys.geps && s == x ==> GepDone(st, d, TOP, off))
    && (forall d: nat, s: nat :: (d, s) in sys.loads && s < |st.pts| ==>
          (x in st.pts[s] ==> HasTop(st, d)) && (s == x ==> EdgeDone(st, TOP, d)))
    && (forall v: nat, p: nat :: (v, p) in sys.stores && p < |st.pts| ==>
          (v == x ==> forall o: nat :: o in st.pts[p] ==> HasTop(st, o)) && (p == x ==> EdgeDone(st, v, TOP)))
  }

  ghost predicate HasTop(st: State, d: nat) {
    d < |st.pts| && (d in st.saturated || TOP in st.pts[d])
  }

  /** TOP at a node that was poisoned since the start, and what it calls for. */
  ghost predicate StainsServed(sys: System, st: State) {
    forall x: nat :: x < |st.pts| && TOP in st.pts[x] && Stained(st, sys.start.poisoned, x) ==> TopServed(sys, st, x)
  }

  lemma EdgeServed(st: State, before: set<nat>, s: nat, d: nat)
    requires EdgeMet(st, before, s, d) && (TOP in st.pts[s] && Stained(st, before, s) ==> HasTop(st, d))
    ensures EdgeDone(st, s, d)
  {
  }

  lemma ServedCopies(sys: System, st: State)
    requires SolvedBesidesPoison(sys, st) && StainsServed(sys, st)
    ensures forall d: nat, s: nat :: (d, s) in sys.copies ==> EdgeDone(st, s, d)
  {
    hide Stained, EdgeMet, GepsMet, LoadMet, StoreMet, EdgeDone, GepDone;
    forall d: nat, s: nat | (d, s) in sys.copies ensures EdgeDone(st, s, d) {
      assert EdgeMet(st, sys.start.poisoned, s, d);
      MetInRange(st, sys.start.poisoned, s, d);
      EdgeServed(st, sys.start.poisoned, s, d);
    }
  }

  lemma MetInRange(st: State, before: set<nat>, s: nat, d: nat)
    requires EdgeMet(st, before, s, d)
    ensures s < |st.pts| && d < |st.pts|
  {
  }

  lemma ServedGeps(sys: System, st: State)
    requires SolvedBesidesPoison(sys, st) && StainsServed(sys, st)
    ensures forall d: nat, s: nat, off: nat :: (d, s, off) in sys.geps ==> s < |st.pts| && GepsDone(st, d, s, off)
  {
    hide Stained, EdgeMet, LoadMet, StoreMet, EdgeDone, GepDone;
    forall d: nat, s: nat, off: nat | (d, s, off) in sys.geps ensures s < |st.pts| && GepsDone(st, d, s, off) {
      assert GepsMet(st, sys.start.poisoned, d, s, off);
    }
  }

  lemma ServedLoads(sys: System, st: State)
    requires SolvedBesidesPoison(sys, st) && StainsServed(sys, st)
    ensures forall d: nat, s: nat :: (d, s) in sys.loads ==> s < |st.pts| && LoadDone(st, d, s)
  {
    hide Stained, EdgeMet, GepsMet, StoreMet, EdgeDone, GepDone;
    forall d: nat, s: nat | (d, s) in sys.loads ensures s < |st.pts| && LoadDone(st, d, s) {
      assert LoadMet(st, sys.start.poisoned, d, s);
      forall o: nat | o in st.pts[s] ensures EdgeDone(st, o, d) {
        if EdgeMet(st, sys.start.poisoned, o, d) {
          MetInRange(st, sys.start.poisoned, o, d);
          EdgeServed(st, sys.start.poisoned, o, d);
        }
      }
    }
  }

  lemma ServedStores(sys: System, st: State)
    requires SolvedBesidesPoison(sys, st) && StainsServed(sys, st)
    ensures forall v: nat, p: nat :: (v, p) in sys.stores ==> p < |st.pts| && StoreDone(st, v, p)
  {
    hide Stained, EdgeMet, GepsMet, LoadMet, EdgeDone, GepDone;
    forall v: nat, p: nat | (v, p) in sys.stores ensures p < |st.pts| && StoreDone(st, v, p) {
      assert StoreMet(st, sys.start.poisoned, v, p);
      forall o: nat | o in st.pts[p] ensures EdgeDone(st, v, o) {
        if EdgeMet(st, sys.start.poisoned, v, o) {
          MetInRange(st, sys.start.poisoned, v, o);
          EdgeServed(st, sys.start.poisoned, v, o);
        }
      }
    }
  }

  lemma SolvedServes(sys: System, st: State, x: nat)
    requires Solved(sys, st) && x < |st.pts| && TOP in st.pts[x]
    ensures TopServed(sys, st, x)
  {
    forall d: nat, s: nat | (d, s) in sys.loads && s < |st.pts|
      ensures (x in st.pts[s] ==> HasTop(st, d)) && (s == x ==> EdgeDone(st, TOP, d))
    {
      assert LoadDone(st, d, s);
      assert x in st.pts[s] ==> EdgeDone(st, x, d);
    }
    forall v: nat, p: nat | (v, p) in sys.stores && p < |st.pts|
      ensures (v == x ==> forall o: nat :: o in st.pts[p] ==> HasTop(st, o)) && (p == x ==> EdgeDone(st, v, TOP))
    {
      assert StoreDone(st, v, p);
      forall o: nat | o in st.pts[p] && v == x ensures HasTop(st, o) {
        assert EdgeDone(st, v, o);
      }
    }
    forall d: nat, s: nat, off: nat | (d, s, off) in sys.geps && s == x ensures GepDone(st, d, TOP, off) {
      assert GepsDone(st, d, s, off);
    }
  }

  /**
   Of what solving promises for every system to a full solution, exactly this is
   missing: TOP in the set of a poisoned object or its cell has done its work.
   */
  lemma SolvedExactly(sys: System, st: State)
    requires SolvedBesidesPoison(sys, st)
    ensures Solved(sys, st) <==> StainsServed(sys, st)
  {
    if StainsServed(sys, st) {
      ServedCopies(sys, st);
      ServedGeps(sys, st);
      ServedLoads(sys, st);
      ServedStores(sys, st);
      hide EdgeMet, GepsMet, LoadMet, StoreMet, EdgeDone, GepsDone, LoadDone, StoreDone, StainsServed;
    }
    if Solved(sys, st) {
      forall x: nat | x < |st.pts| && TOP in st.pts[x] && Stained(st, sys.start.poisoned, x)
        ensures TopServed(sys, st, x)
      {
        SolvedServes(sys, st, x);
      }
      hide TopServed, Solved, SolvedBesidesPoison, Stained;
    }
  }

  // ------------------------------------------------------------ a load that is left behind

  /** Nodes 1 to 5 are an object, `p` and `q` that point to it, `d = *q`, and `r = &p[unknown]`. */
  ghost function MissedLoad(): System {
    System([(2, 1), (3, 1)], [], [(5, 2, ANY_OFFSET)], [(4, 3)], [],
           State(6, [{}, {}, {}, {}, {}, {}], map[], {}, {}, [Base(0), Base(1), Base(2), Base(3), Base(4), Base(5)]))
  }

  ghost function Sets(obj: set<nat>, r: set<nat>): seq<set<nat>> {
    [{}, obj, {1}, {1}, {}, r]
  }

  ghost function Stage(k: nat): Work {
    var st := MissedLoad().start.(pts := Sets({}, {}));
    var late := st.(pts := Sets({TOP}, {TOP}), poisoned := {1});
    if k == 0 then Work(st, map[], Queue([2, 3], {2, 3}))
    else if k == 1 then Work(st, map[1 := {4}], Queue([2], {2}))
    else if k == 2 then Work(late, map[1 := {4}], Queue([5], {5}))
    else Work(late, map[1 := {4}], Queue([], {}))
  }

  lemma {:induction false} ListingSize(q: seq<nat>, s: set<nat>)
    requires IsListing(q, s)
    ensures |q| == |s|
  {
    if q == [] {
      assert s == {};
    } else {
      var n := |q| - 1;
      assert q == q[..n] + [q[n]] && q[n] in q;
      ListingSize(q[..n], s - {q[n]});
    }
  }

  lemma OneListed(q: seq<nat>, x: nat)
    requires IsListing(q, {x})
    ensures q == [x]
  {
    ListingSize(q, {x});
    assert q[0] in q;
  }

  lemma NoneListed(q: seq<nat>)
    requires IsListing(q, {})
    ensures q == []
  {
    ListingSize(q, {});
  }

  lemma OnePair(d: nat, s: nat)
    ensures PairTable([(d, s)]) == map[s := [d]] && PairTable([]) == map[]
  {
    assert [(d, s)][..0] == [] && [] + [d] == [d];
  }

  lemma OneGep(d: nat, s: nat, off: nat)
    ensures GepTable([(d, s, off)]) == map[s := [(d, off)]]
  {
    assert [(d, s, off)][..0] == [] && [] + [(d, off)] == [(d, off)];
  }

  lemma MissedTables()
    ensures TablesOf(MissedLoad()) == Tables(map[2 := [(5, ANY_OFFSET)]], map[3 := [4]], map[])
  {
    OnePair(4, 3);
    OneGep(5, 2, ANY_OFFSET);
    hide PairTable, GepTable;
  }

  lemma OneSeed(w: Work, p: nat, o: nat)
    ensures Seeded(w, [(p, o)]) == Grow(w, p, {o})
  {
    assert [(p, o)][..0] == [];
  }

  lemma TwoSeeds(w: Work, p: nat, q: nat, o: nat)
    ensures Seeded(w, [(p, o), (q, o)]) == Grow(Grow(w, p, {o}), q, {o})
  {
    OneSeed(w, p, o);
    assert [(p, o), (q, o)][..1] == [(p, o)];
    hide Grow;
  }

  lemma FirstTarget(w: Work, x: nat, o: nat)
    requires x < |w.st.pts| && w.st.pts[x] == {} && x !in w.st.saturated
    ensures Grow(w, x, {o}) == Work(w.st.(pts := w.st.pts[x := {o}]), w.ct, Enqueue(w.q, x))
  {
    assert {} + {o} == {o};
    assert w.st.pts[x := {o}][x] != w.st.pts[x];
  }

  lemma MissedSeeds()
    ensures Seeded(Work(MissedLoad().start, map[], Queue([], {})), MissedLoad().addr) == Stage(0)
  {
    var w := Work(MissedLoad().start, map[], Queue([], {}));
    TwoSeeds(w, 2, 3, 1);
    hide Seeded, Grow;
    FirstTarget(w, 2, 1);
    FirstTarget(Grow(w, 2, {1}), 3, 1);
    assert w.st.pts[2 := {1}][3 := {1}] == Sets({}, {});
  }

  /** Nobody else has targets. */
  lemma {:induction false} AllAwake(n: nat)
    requires n <= 6
    ensures Awake(Stage(0), n) == Stage(0)
  {
    if n == 0 {
      AwakeNone(Stage(0));
    } else {
      AllAwake(n - 1);
      AwakeMore(Stage(0), n - 1);
      hide Awake;
    }
  }

  lemma MissedStart()
    ensures Begun(MissedLoad()) == Stage(0)
  {
    MissedSeeds();
    AllAwake(6);
    hide Seeded, Awake, Stage;
  }

  lemma OneLoad(w: Work, d: nat, o: nat)
    ensures AllLoads(w, [d], [o]) == LinkTo(w, o, d)
  {
    AllLoadsNone(w, [d], [o]);
    LoadsNone(w, d, [o]);
    AllLoadsMore(w, [d], [o], 0);
    LoadsMore(w, d, [o], 0);
    assert [d][..1] == [d] && [o][..1] == [o];
    hide AllLoads, Loads, LinkTo;
  }

  lemma OneField(w: Work, d: nat, off: nat, o: nat)
    ensures AllFields(w, [(d, off)], [o]) == TakeField(w, d, off, o)
  {
    AllFieldsNone(w, [(d, off)], [o]);
    FieldsNone(w, d, off, [o]);
    AllFieldsMore(w, [(d, off)], [o], 0);
    FieldsMore(w, d, off, [o], 0);
    assert [(d, off)][..1] == [(d, off)] && [o][..1] == [o];
    hide AllFields, Fields, TakeField;
  }

  /** `q` is popped first: the edge from the object to `d` is wired, and has nothing to carry yet. */
  lemma FirstTurn(w: Work)
    requires Turn(TablesOf(MissedLoad()), Stage(0), w)
    ensures w == Stage(1)
  {
    MissedTables();
    var tb, v := TablesOf(MissedLoad()), Popped(Stage(0));
    var objs: seq<nat>, dsts: seq<nat> :| Visits(tb, v, w, 3, objs, dsts);
    OneListed(objs, 1);
    OneLoad(v, 4, 1);
    hide AllFields, AllLoads, AllStores, Copies, Interned;
    NothingElse(tb, v, 3, objs);
    assert LinkTo(v, 1, 4).st.pts == v.st.pts;
    assert Triggers(tb, v, 3, objs) == LinkTo(v, 1, 4) == Stage(1);
    NoneListed(dsts);
    CopiesNone(Stage(1), 3, []);
  }

  lemma NothingElse(tb: Tables, w: Work, node: nat, objs: seq<nat>)
    ensures Entries(tb.gepTo, node) == [] ==> AllFields(w, Entries(tb.gepTo, node), objs) == w
    ensures Entries(tb.loadTo, node) == [] ==> forall v: Work :: AllLoads(v, Entries(tb.loadTo, node), objs) == v
    ensures Entries(tb.storeFrom, node) == [] ==> forall v: Work :: AllStores(v, Entries(tb.storeFrom, node), objs) == v
  {
  }

  /** `p` comes next: the object gets TOP and is not queued. */
  lemma SecondTurn(w: Work)
    requires Turn(TablesOf(MissedLoad()), Stage(1), w)
    ensures w == Stage(2)
  {
    MissedTables();
    var tb, v := TablesOf(MissedLoad()), Popped(Stage(1));
    var objs: seq<nat>, dsts: seq<nat> :| Visits(tb, v, w, 2, objs, dsts);
    OneListed(objs, 1);
    OneField(v, 5, ANY_OFFSET, 1);
    hide AllFields, AllLoads, AllStores, Copies;
    NothingElse(tb, v, 2, objs);
    PoisonStep(v);
    hide TakeField;
    assert Triggers(tb, v, 2, objs) == Stage(2);
    NoneListed(dsts);
    CopiesNone(Stage(2), 2, []);
  }

  lemma PoisonStep(v: Work)
    requires v == Popped(Stage(1))
    ensures TakeField(v, 5, ANY_OFFSET, 1) == Stage(2)
  {
    var st := Interned(v.st, 1, ANY_OFFSET);
    assert v.st.pts == Sets({}, {}) && {} + {TOP} == {TOP};
    forall x: nat | x < 6 ensures st.pts[x] == Sets({TOP}, {})[x] {
      assert Tainted(v.st, 1, x) <==> x == 1;
    }
    assert st.pts == Sets({TOP}, {});
    assert Widen(st, 5, {TOP}).pts == Sets({TOP}, {TOP});
  }

  /** `r` has no constraints of its own, and then nothing is waiting. */
  lemma ThirdTurn(w: Work)
    requires Turn(TablesOf(MissedLoad()), Stage(2), w)
    ensures w == Stage(3)
  {
    MissedTables();
    var tb, v := TablesOf(MissedLoad()), Popped(Stage(2));
    var objs: seq<nat>, dsts: seq<nat> :| Visits(tb, v, w, 5, objs, dsts);
    hide AllFields, AllLoads, AllStores, Copies;
    NothingElse(tb, v, 5, objs);
    assert Triggers(tb, v, 5, objs) == Stage(3);
    NoneListed(dsts);
    CopiesNone(Stage(3), 5, []);
  }

  lemma {:induction false} AfterTurns(w: Work, k: nat)
    requires Turns(TablesOf(MissedLoad()), Begun(MissedLoad()), w, k)
    ensures k <= 3 && w == Stage(k)
    decreases k
  {
    hide Turn, Begun, TablesOf, Stage;
    if k == 0 {
      MissedStart();
    } else {
      var mid :| Turns(TablesOf(MissedLoad()), Begun(MissedLoad()), mid, k - 1) && Turn(TablesOf(MissedLoad()), mid, w);
      AfterTurns(mid, k - 1);
      if k == 1 {
        FirstTurn(w);
      } else if k == 2 {
        SecondTurn(w);
      } else if k == 3 {
        ThirdTurn(w);
      } else {
        NoTurn(w);
      }
    }
  }

  lemma NoTurn(w: Work)
    ensures !Turn(TablesOf(MissedLoad()), Stage(3), w)
  {
  }

  lemma StillWaiting(k: nat)
    ensures k < 3 <==> Stage(k).q.work != []
    ensures k >= 3 ==> Stage(k) == Stage(3)
  {
  }

  /** Every run of the solver on this system leaves the load unmet: the object has TOP, and `d = *q` nothing. */
  lemma LoadLeftBehind(st: State)
    requires EndsIn(MissedLoad(), st)
    ensures (4, 3) in MissedLoad().loads && !Solved(MissedLoad(), st)
    ensures |st.pts| == 6 && TOP in st.pts[1] && 1 in st.pts[3] && st.pts[4] == {} && !LoadDone(st, 4, 3)
  {
    EndsParts(st);
    hide EndsIn, Scoped;
    assert !EdgeDone(st, 1, 4);
  }

  lemma EndsParts(st: State)
    requires EndsIn(MissedLoad(), st)
    ensures st == Stage(3).st
  {
    hide Turns, Begun, TablesOf, Stage;
    var k: nat, w: Work :| Turns(TablesOf(MissedLoad()), Begun(MissedLoad()), w, k) && w.q.work == [] && w.st == st;
    AfterTurns(w, k);
    StillWaiting(k);
  }

  lemma OnlyTop(st: State)
    requires Good(st) && st.n == 1
    ensures st.names == [Base(TOP)]
  {
  }

  ghost function Bare(n: nat): State {
    State(n, seq(n, _ => {}), map[], {}, {}, seq(n, i requires i >= 0 => Base(i)))
  }

  lemma BareMore(n: nat)
    ensures Fresh(Bare(n), Base(n), {}) == Bare(n + 1)
  {
  }

  lemma BareStart(st: State)
    requires Good(st) && st.n == 1 && st.pts == [{}] && st.cells == map[] && st.poisoned == {} && st.saturated == {}
    ensures st == Bare(1)
  {
    OnlyTop(st);
  }

  lemma BareSix()
    ensures Bare(6) == MissedLoad().start
  {
  }

  /** TOP and five more nodes. */
  method SixNodes() returns (s: Solver)
    ensures fresh(s) && Good(s.View()) && s.n == 6 && s.View() == Bare(6)
    ensures s.Rules(s.View()) == System([], [], [], [], [], s.View())
  {
    s := new Solver();
    BareStart(s.View());
    hide Good, Bare, Fresh;
    for i := 1 to 6
      invariant fresh(s) && Good(s.View()) && s.n == i && s.View() == Bare(i)
      invariant s.Rules(s.View()) == System([], [], [], [], [], s.View())
    {
      var x := s.NewVar();
      BareMore(i);
    }
  }

  /** The constraints, in this order. */
  method BuildMissedLoad() returns (s: Solver)
    ensures fresh(s) && Good(s.View()) && s.n == 6 && s.Rules(s.View()) == MissedLoad()
  {
    hide Good, Bare;
    s := SixNodes();
    BareSix();
    s.AddressOf(2, 1);
    s.AddressOf(3, 1);
    s.Load(4, 3);
    s.Gep(5, 2, ANY_OFFSET);
  }

  lemma MissedScoped()
    ensures Scoped(MissedLoad(), 6)
  {
  }

  /** Build the system and solve it: the load is not met. */
  method SolveMissedLoad() returns (s: Solver)
    ensures fresh(s) && s.loads == [(4, 3)] && |s.pts| == 6
    ensures TOP in s.pts[1] && 1 in s.pts[3] && s.pts[4] == {} && !LoadDone(s.View(), 4, 3)
  {
    s := BuildMissedLoad();
    MissedScoped();
    hide Good, Later, SolvedBesidesPoison, Solved, Final, Exact, NoAnyOffset, EndsIn, Scoped, LoadDone;
    s.Solve();
    LoadLeftBehind(s.View());
  }
}
