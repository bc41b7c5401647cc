/**
 What the points-to solver does, step by step, as functions on its state, copy
 edges and worklist; only the order in which a set is listed is left open
 (crates/absint/src/pointsto.rs:266-349).
 */
module PointsToSteps {
  import opened Wrappers
  import opened PointsToRules

  /** The stack of nodes to revisit, and the set of nodes on it. */
  datatype Queue = Queue(work: seq<nat>, on: set<nat>)

  function Enqueue(q: Queue, x: nat): Queue {
    if x in q.on then q else Queue(q.work + [x], q.on + {x})
  }

  type Edges = map<nat, set<nat>>

  function Targets(ct: Edges, s: nat): set<nat> {
    if s in ct then ct[s] else {}
  }

  function WithEdge(ct: Edges, s: nat, d: nat): Edges {
    ct[s := Targets(ct, s) + {d}]
  }

  /** All that changes while solving. */
  datatype Work = Work(st: State, ct: Edges, q: Queue)

  // ------------------------------------------------------------ single steps

  /** Put `extra` into the set of `dst`, and queue `dst` if that changed anything. */
  ghost function Grow(w: Work, dst: nat, extra: set<nat>): Work {
    if dst >= |w.st.pts| then w
    else
      var st := Widen(w.st, dst, extra);
      Work(st, w.ct, if st == w.st then w.q else Enqueue(w.q, dst))
  }

  ghost function FlowTo(w: Work, dst: nat, src: nat): Work {
    if src < |w.st.pts| then Grow(w, dst, w.st.pts[src]) else w
  }

  /** `dst` gets the field of one object. */
  ghost function TakeField(w: Work, dst: nat, off: nat, o: nat): Work {
    if |w.st.pts| == |w.st.names| == w.st.n && o < w.st.n then
      var st := Interned(w.st, o, off);
      match FieldNode(st, o, off)
      case Some(c) => Grow(w.(st := st), dst, {c})
      case None => w.(st := st)
    else w
  }

  lemma FieldTaken(w: Work, mid: State, dst: nat, off: nat, o: nat, cell: nat, q': Queue)
    requires |w.st.pts| == |w.st.names| == w.st.n && o < w.st.n && mid == Interned(w.st, o, off)
    requires FieldNode(mid, o, off) == Some(cell) && dst < |mid.pts|
    requires q' == if Widen(mid, dst, {cell}) == mid then w.q else Enqueue(w.q, dst)
    ensures TakeField(w, dst, off, o) == Work(Widen(mid, dst, {cell}), w.ct, q')
  {
    hide Widen, Interned, FieldNode;
  }

  /** A new copy edge is followed at once. */
  ghost function LinkTo(w: Work, src: nat, dst: nat): Work {
    if dst in Targets(w.ct, src) then w else FlowTo(w.(ct := WithEdge(w.ct, src, dst)), dst, src)
  }

  // ------------------------------------------------------------ the phases of a visit

  ghost function Fields(w: Work, dst: nat, off: nat, objs: seq<nat>): Work {
    if objs == [] then w else TakeField(Fields(w, dst, off, objs[..|objs| - 1]), dst, off, objs[|objs| - 1])
  }

  ghost function AllFields(w: Work, edges: seq<(nat, nat)>, objs: seq<nat>): Work {
    if edges == [] then w
    else
      var (dst, off) := edges[|edges| - 1];
      Fields(AllFields(w, edges[..|edges| - 1], objs), dst, off, objs)
  }

  ghost function Loads(w: Work, dst: nat, objs: seq<nat>): Work {
    if objs == [] then w else LinkTo(Loads(w, dst, objs[..|objs| - 1]), objs[|objs| - 1], dst)
  }

  ghost function AllLoads(w: Work, dsts: seq<nat>, objs: seq<nat>): Work {
    if dsts == [] then w else Loads(AllLoads(w, dsts[..|dsts| - 1], objs), dsts[|dsts| - 1], objs)
  }

  ghost function Stores(w: Work, value: nat, objs: seq<nat>): Work {
    if objs == [] then w else LinkTo(Stores(w, value, objs[..|objs| - 1]), value, objs[|objs| - 1])
  }

  ghost function AllStores(w: Work, values: seq<nat>, objs: seq<nat>): Work {
    if values == [] then w else Stores(AllStores(w, values[..|values| - 1], objs), values[|values| - 1], objs)
  }

  ghost function Copies(w: Work, node: nat, dsts: seq<nat>): Work {
    if dsts == [] then w else FlowTo(Copies(w, node, dsts[..|dsts| - 1]), dsts[|dsts| - 1], node)
  }

  lemma FieldsNone(w: Work, dst: nat, off: nat, objs: seq<nat>)
    ensures Fields(w, dst, off, objs[..0]) == w
  {
  }

  lemma AllFieldsNone(w: Work, edges: seq<(nat, nat)>, objs: seq<nat>)
    ensures AllFields(w, edges[..0], objs) == w
  {
  }

  lemma LoadsNone(w: Work, dst: nat, objs: seq<nat>)
    ensures Loads(w, dst, objs[..0]) == w
  {
  }

  lemma AllLoadsNone(w: Work, dsts: seq<nat>, objs: seq<nat>)
    ensures AllLoads(w, dsts[..0], objs) == w
  {
  }

  lemma StoresNone(w: Work, value: nat, objs: seq<nat>)
    ensures Stores(w, value, objs[..0]) == w
  {
  }

  lemma AllStoresNone(w: Work, values: seq<nat>, objs: seq<nat>)
    ensures AllStores(w, values[..0], objs) == w
  {
  }

  lemma CopiesNone(w: Work, node: nat, dsts: seq<nat>)
    ensures Copies(w, node, dsts[..0]) == w
  {
  }

  lemma FieldsMore(w: Work, dst: nat, off: nat, objs: seq<nat>, k: nat)
    requires k < |objs|
    ensures Fields(w, dst, off, objs[..k + 1]) == TakeField(Fields(w, dst, off, objs[..k]), dst, off, objs[k])
  {
    assert objs[..k + 1][..k] == objs[..k];
  }

  lemma AllFieldsMore(w: Work, edges: seq<(nat, nat)>, objs: seq<nat>, k: nat)
    requires k < |edges|
    ensures AllFields(w, edges[..k + 1], objs) ==
            Fields(AllFields(w, edges[..k], objs), edges[k].0, edges[k].1, objs)
  {
    assert edges[..k + 1][..k] == edges[..k];
  }

  lemma LoadsMore(w: Work, dst: nat, objs: seq<nat>, k: nat)
    requires k < |objs|
    ensures Loads(w, dst, objs[..k + 1]) == LinkTo(Loads(w, dst, objs[..k]), objs[k], dst)
  {
    assert objs[..k + 1][..k] == objs[..k];
  }

  lemma AllLoadsMore(w: Work, dsts: seq<nat>, objs: seq<nat>, k: nat)
    requires k < |dsts|
    ensures AllLoads(w, dsts[..k + 1], objs) == Loads(AllLoads(w, dsts[..k], objs), dsts[k], objs)
  {
    assert dsts[..k + 1][..k] == dsts[..k];
  }

  lemma StoresMore(w: Work, value: nat, objs: seq<nat>, k: nat)
    requires k < |objs|
    ensures Stores(w, value, objs[..k + 1]) == LinkTo(Stores(w, value, objs[..k]), value, objs[k])
  {
    assert objs[..k + 1][..k] == objs[..k];
  }

  lemma AllStoresMore(w: Work, values: seq<nat>, objs: seq<nat>, k: nat)
    requires k < |values|
    ensures AllStores(w, values[..k + 1], objs) == Stores(AllStores(w, values[..k], objs), values[k], objs)
  {
    assert values[..k + 1][..k] == values[..k];
  }

  lemma CopiesMore(w: Work, node: nat, dsts: seq<nat>, k: nat)
    requires k < |dsts|
    ensures Copies(w, node, dsts[..k + 1]) == FlowTo(Copies(w, node, dsts[..k]), dsts[k], node)
  {
    assert dsts[..k + 1][..k] == dsts[..k];
  }

  // ------------------------------------------------------------ visits and runs

  /** The constraints under the node that triggers them, in the order they were recorded. */
  datatype Tables = Tables(gepTo: map<nat, seq<(nat, nat)>>, loadTo: map<nat, seq<nat>>, storeFrom: map<nat, seq<nat>>)

  function Entries<T>(m: map<nat, seq<T>>, s: nat): seq<T> {
    if s in m then m[s] else []
  }

  ghost predicate IsListing(q: seq<nat>, s: set<nat>) {
    (forall x: nat :: x in q <==> x in s) && forall i, j :: 0 <= i < j < |q| ==> q[i] != q[j]
  }

  /** Everything the targets `objs` of `node` trigger but the copies out of it. */
  ghost function Triggers(tb: Tables, w: Work, node: nat, objs: seq<nat>): Work {
    AllStores(AllLoads(AllFields(w, Entries(tb.gepTo, node), objs), Entries(tb.loadTo, node), objs),
              Entries(tb.storeFrom, node), objs)
  }

  /** One visit of `node`, with its targets and its copy edges listed in some order. */
  ghost predicate Visits(tb: Tables, w: Work, w': Work, node: nat, objs: seq<nat>, dsts: seq<nat>) {
    && node < |w.st.pts| && IsListing(objs, w.st.pts[node])
    && IsListing(dsts, Targets(Triggers(tb, w, node, objs).ct, node))
    && w' == Copies(Triggers(tb, w, node, objs), node, dsts)
  }

  ghost function Popped(w: Work): Work
    requires w.q.work != []
  {
    var n := |w.q.work| - 1;
    w.(q := Queue(w.q.work[..n], w.q.on - {w.q.work[n]}))
  }

  ghost predicate Visited(tb: Tables, w: Work, w': Work, node: nat) {
    exists objs: seq<nat>, dsts: seq<nat> :: Visits(tb, w, w', node, objs, dsts)
  }

  /** Take the node on top of the stack and visit it. */
  ghost predicate Turn(tb: Tables, w: Work, w': Work) {
    w.q.work != [] && Visited(tb, Popped(w), w', w.q.work[|w.q.work| - 1])
  }

  ghost predicate Turns(tb: Tables, w: Work, w': Work, k: nat)
    decreases k
  {
    if k == 0 then w' == w else exists mid :: Turns(tb, w, mid, k - 1) && Turn(tb, mid, w')
  }

  // ------------------------------------------------------------ where a run starts

  function PairTable(list: seq<(nat, nat)>): map<nat, seq<nat>> {
    if list == [] then map[]
    else
      var m := PairTable(list[..|list| - 1]);
      var (d, s) := list[|list| - 1];
      m[s := Entries(m, s) + [d]]
  }

  function GepTable(list: seq<(nat, nat, nat)>): map<nat, seq<(nat, nat)>> {
    if list == [] then map[]
    else
      var m := GepTable(list[..|list| - 1]);
      var (d, s, off) := list[|list| - 1];
      m[s := Entries(m, s) + [(d, off)]]
  }

  function EdgeTable(list: seq<(nat, nat)>): Edges {
    if list == [] then map[]
    else WithEdge(EdgeTable(list[..|list| - 1]), list[|list| - 1].1, list[|list| - 1].0)
  }

  function TablesOf(sys: System): Tables {
    Tables(GepTable(sys.geps), PairTable(sys.loads), PairTable(sys.stores))
  }

  ghost function Seeded(w: Work, addr: seq<(nat, nat)>): Work {
    if addr == [] then w else Grow(Seeded(w, addr[..|addr| - 1]), addr[|addr| - 1].0, {addr[|addr| - 1].1})
  }

  /** Every node below `n` that has targets is queued. */
  ghost function Awake(w: Work, n: nat): Work {
    if n == 0 then w
    else
      var v := Awake(w, n - 1);
      if n - 1 < |v.st.pts| && v.st.pts[n - 1] != {} then v.(q := Enqueue(v.q, n - 1)) else v
  }

  ghost function Begun(sys: System): Work {
    Awake(Seeded(Work(sys.start, EdgeTable(sys.copies), Queue([], {})), sys.addr), sys.start.n)
  }

  lemma SeededMore(w: Work, addr: seq<(nat, nat)>, k: nat)
    requires k < |addr|
    ensures Seeded(w, addr[..k + 1]) == Grow(Seeded(w, addr[..k]), addr[k].0, {addr[k].1})
  {
    assert addr[..k + 1][..k] == addr[..k];
  }

  /** Turns are taken until nothing is waiting, which leaves the state `st`. */
  ghost predicate Drains(tb: Tables, w: Work, st: State) {
    exists k: nat, end: Work :: Turns(tb, w, end, k) && end.q.work == [] && end.st == st
  }

  /** A run of the solver on the system ends in `st`. */
  ghost predicate EndsIn(sys: System, st: State) {
    Drains(TablesOf(sys), Begun(sys), st)
  }

  lemma DrainsIntro(tb: Tables, w: Work, end: Work, k: nat)
    requires Turns(tb, w, end, k) && end.q.work == []
    ensures Drains(tb, w, end.st)
  {
    hide Turns;
  }

  lemma TurnsNone(tb: Tables, w: Work)
    ensures Turns(tb, w, w, 0)
  {
  }

  lemma SeededNone(w: Work, addr: seq<(nat, nat)>)
    ensures Seeded(w, addr[..0]) == w
  {
  }

  lemma AwakeNone(w: Work)
    ensures Awake(w, 0) == w
  {
  }

  lemma AwakeMore(w: Work, n: nat)
    ensures var v := Awake(w, n);
            Awake(w, n + 1) == if n < |v.st.pts| && v.st.pts[n] != {} then v.(q := Enqueue(v.q, n)) else v
  {
  }

  lemma BegunIs(sys: System, w1: Work, w2: Work)
    requires w1 == Seeded(Work(sys.start, EdgeTable(sys.copies), Queue([], {})), sys.addr)
    requires w2 == Awake(w1, sys.start.n)
    ensures w2 == Begun(sys)
  {
  }

  lemma VisitMade(tb: Tables, w: Work, w1: Work, w2: Work, w3: Work, w': Work, node: nat, objs: seq<nat>,
                  dsts: seq<nat>)
    requires node < |w.st.pts| && IsListing(objs, w.st.pts[node]) && IsListing(dsts, Targets(w3.ct, node))
    requires w1 == AllFields(w, Entries(tb.gepTo, node), objs)
    requires w2 == AllLoads(w1, Entries(tb.loadTo, node), objs)
    requires w3 == AllStores(w2, Entries(tb.storeFrom, node), objs) && w' == Copies(w3, node, dsts)
    ensures Visited(tb, w, w', node)
  {
    hide AllFields, AllLoads, AllStores, Copies, IsListing;
    assert Visits(tb, w, w', node, objs, dsts);
  }

  lemma TurnMade(tb: Tables, w0: Work, w: Work, w': Work, k: nat)
    requires Turns(tb, w0, w, k) && w.q.work != []
    requires Visited(tb, Popped(w), w', w.q.work[|w.q.work| - 1])
    ensures Turns(tb, w0, w', k + 1)
  {
    hide Visited, Popped;
    assert Turn(tb, w, w');
  }
}
