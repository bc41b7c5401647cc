/**
 The generic dataflow worklist (crates/absint/src/engine.rs). The result is a post-fixpoint, and the loop terminates
 on every graph for arbitrary transfer functions, because widening is forced after enough visits.
 */
module Engine {
  import opened Graphs

  /** The executable part of an abstract domain (crates/absint/src/domain.rs). */
  datatype Lattice<!D> = Lattice(bottom: D, join: (D, D) -> D, widen: (D, D) -> D)

  /** What the solver needs of it: an order, well-formed elements, and a rank that widening lowers. */
  datatype Laws<!D> = Laws(ok: D -> bool, leq: (D, D) -> bool, coarse: D -> nat, fine: D -> nat)

  ghost predicate Lawful<D(!new)>(l: Lattice<D>, w: Laws<D>) {
    && w.ok(l.bottom)
    && (forall a, b :: w.ok(a) && w.ok(b) ==> w.ok(l.join(a, b)) && w.ok(l.widen(a, b)))
    && (forall a :: w.ok(a) ==> w.leq(a, a))
    && (forall a, b, c :: w.ok(a) && w.ok(b) && w.ok(c) && w.leq(a, b) && w.leq(b, c) ==> w.leq(a, c))
    && (forall a, b :: w.ok(a) && w.ok(b) ==> w.leq(a, l.join(a, b)) && w.leq(b, l.join(a, b)))
    && (forall a, b :: w.ok(a) && w.ok(b) ==> w.leq(b, l.widen(a, b)))
    && (forall a, b :: w.ok(a) && w.ok(b) && l.widen(a, b) != a ==> RankFalls(w, a, l.widen(a, b)))
  }

  ghost predicate RankFalls<D>(w: Laws<D>, a: D, b: D) {
    w.coarse(b) < w.coarse(a) || (w.coarse(b) == w.coarse(a) && w.fine(b) < w.fine(a))
  }

  /** A forward problem: graph, entry seed and the two transfer callbacks. */
  datatype Problem<!D> = Problem(
    g: Graph, entry: nat, headers: set<nat>, lat: Lattice<D>,
    entryState: D, transfer: (nat, D) -> D, edge: (nat, nat, D) -> D)

  ghost predicate WellPosed<D(!new)>(pb: Problem<D>, w: Laws<D>) {
    && pb.g.Valid() && pb.entry < pb.g.N() && Lawful(pb.lat, w) && w.ok(pb.entryState)
    && (forall u, d :: w.ok(d) ==> w.ok(pb.transfer(u, d)))
    && (forall p, u, d :: w.ok(d) ==> w.ok(pb.edge(p, u, d)))
  }

  datatype Solution<D> = Solution(inStates: seq<D>, outStates: seq<D>)

  ghost function Seed<D>(pb: Problem<D>, u: nat): D {
    if u == pb.entry then pb.entryState else pb.lat.bottom
  }

  /** The seed of `u` joined with the contributions of its first `k` predecessors. */
  ghost function JoinedTo<D>(pb: Problem<D>, outs: seq<D>, u: nat, k: nat): D
    requires pb.g.Valid() && |outs| == pb.g.N() && u < pb.g.N() && k <= |pb.g.pred[u]|
  {
    if k == 0 then Seed(pb, u)
    else
      var p := pb.g.pred[u][k - 1];
      pb.lat.join(JoinedTo(pb, outs, u, k - 1), pb.edge(p, u, outs[p]))
  }

  ghost function Joined<D>(pb: Problem<D>, outs: seq<D>, u: nat): D
    requires pb.g.Valid() && |outs| == pb.g.N() && u < pb.g.N()
  {
    JoinedTo(pb, outs, u, |pb.g.pred[u]|)
  }

  // ------------------------------------------------------------- result

  /** The exit state belongs to the entry state, or neither has been touched. */
  ghost predicate Transferred<D>(pb: Problem<D>, i: D, o: D, u: nat) {
    o == pb.transfer(u, i) || (i == pb.lat.bottom && o == pb.lat.bottom)
  }

  ghost predicate Covered<D>(pb: Problem<D>, w: Laws<D>, sol: Solution<D>, u: nat)
    requires pb.g.Valid() && |sol.inStates| == |sol.outStates| == pb.g.N() && u < pb.g.N()
  {
    w.leq(Joined(pb, sol.outStates, u), sol.inStates[u])
  }

  /** Everything the solver keeps, except that nodes in `work` may lag behind their predecessors. */
  ghost predicate Lagging<D>(pb: Problem<D>, w: Laws<D>, sol: Solution<D>, work: set<nat>) {
    && pb.g.Valid() && |sol.inStates| == |sol.outStates| == pb.g.N()
    && (forall u: nat :: u < pb.g.N() ==> w.ok(sol.inStates[u]) && w.ok(sol.outStates[u]))
    && (forall u: nat :: u < pb.g.N() ==> Transferred(pb, sol.inStates[u], sol.outStates[u], u))
    && (forall u: nat :: u < pb.g.N() && u !in work && Reachable(pb.g, pb.entry, u) ==> Covered(pb, w, sol, u))
    && (forall u: nat :: u < pb.g.N() && !Reachable(pb.g, pb.entry, u) ==>
          sol.inStates[u] == pb.lat.bottom && sol.outStates[u] == pb.lat.bottom)
  }

  ghost predicate PostFixpoint<D>(pb: Problem<D>, w: Laws<D>, sol: Solution<D>) {
    Lagging(pb, w, sol, {})
  }

  lemma {:induction false} JoinedOk<D(!new)>(pb: Problem<D>, w: Laws<D>, outs: seq<D>, u: nat, k: nat)
    requires WellPosed(pb, w) && |outs| == pb.g.N() && u < pb.g.N() && k <= |pb.g.pred[u]|
    requires forall i :: 0 <= i < |outs| ==> w.ok(outs[i])
    ensures w.ok(JoinedTo(pb, outs, u, k))
  {
    if k > 0 {
      JoinedOk(pb, w, outs, u, k - 1);
      assert w.ok(outs[pb.g.pred[u][k - 1]]);
    }
  }

  lemma JoinUpper<D(!new)>(l: Lattice<D>, w: Laws<D>, a: D, b: D)
    requires Lawful(l, w) && w.ok(a) && w.ok(b)
    ensures w.ok(l.join(a, b)) && w.leq(a, l.join(a, b)) && w.leq(b, l.join(a, b)) && w.leq(a, a)
  {
  }

  lemma ContributionOk<D(!new)>(pb: Problem<D>, w: Laws<D>, outs: seq<D>, p: nat, u: nat)
    requires WellPosed(pb, w) && p < |outs| && w.ok(outs[p])
    ensures w.ok(pb.edge(p, u, outs[p])) && w.ok(Seed(pb, u))
  {
  }

  /** The seed and every folded contribution are below the join. */
  lemma {:induction false} JoinedAbove<D(!new)>(pb: Problem<D>, w: Laws<D>, outs: seq<D>, u: nat, k: nat, j: nat)
    requires WellPosed(pb, w) && |outs| == pb.g.N() && u < pb.g.N() && k <= |pb.g.pred[u]|
    requires forall i :: 0 <= i < |outs| ==> w.ok(outs[i])
    ensures w.leq(Seed(pb, u), JoinedTo(pb, outs, u, k))
    ensures j < k ==> w.leq(pb.edge(pb.g.pred[u][j], u, outs[pb.g.pred[u][j]]), JoinedTo(pb, outs, u, k))
  {
    hide Lawful;
    JoinedOk(pb, w, outs, u, k);
    if k == 0 {
      JoinUpper(pb.lat, w, Seed(pb, u), Seed(pb, u));
    } else {
      var p := pb.g.pred[u][k - 1];
      var below := JoinedTo(pb, outs, u, k - 1);
      JoinedOk(pb, w, outs, u, k - 1);
      JoinedAbove(pb, w, outs, u, k - 1, j);
      ContributionOk(pb, w, outs, p, u);
      JoinUpper(pb.lat, w, below, pb.edge(p, u, outs[p]));
      LeqTrans(pb.lat, w, Seed(pb, u), below, JoinedTo(pb, outs, u, k));
      if j < k - 1 {
        var q := pb.g.pred[u][j];
        ContributionOk(pb, w, outs, q, u);
        LeqTrans(pb.lat, w, pb.edge(q, u, outs[q]), below, JoinedTo(pb, outs, u, k));
      }
    }
  }

  /** The equations of the header comment, as inequalities: the seed and each edge flow into the entry state. */
  lemma FlowsIn<D(!new)>(pb: Problem<D>, w: Laws<D>, sol: Solution<D>, p: nat, u: nat)
    requires WellPosed(pb, w) && PostFixpoint(pb, w, sol)
    requires Reachable(pb.g, pb.entry, u) && u < pb.g.N()
    ensures u == pb.entry ==> w.leq(pb.entryState, sol.inStates[u])
    ensures p < pb.g.N() && pb.g.Edge(p, u) ==> w.leq(pb.edge(p, u, sol.outStates[p]), sol.inStates[u])
    ensures Transferred(pb, sol.inStates[u], sol.outStates[u], u)
  {
    hide Lawful, Reachable;
    var k := |pb.g.pred[u]|;
    JoinedAbove(pb, w, sol.outStates, u, k, 0);
    JoinedOk(pb, w, sol.outStates, u, k);
    assert Covered(pb, w, sol, u);
    if u == pb.entry {
      LeqTrans(pb.lat, w, pb.entryState, Joined(pb, sol.outStates, u), sol.inStates[u]);
    }
    if p < pb.g.N() && pb.g.Edge(p, u) {
      var j :| 0 <= j < k && pb.g.pred[u][j] == p;
      JoinedAbove(pb, w, sol.outStates, u, k, j);
      LeqTrans(pb.lat, w, pb.edge(p, u, sol.outStates[p]), Joined(pb, sol.outStates, u), sol.inStates[u]);
    }
  }

  lemma LeqTrans<D(!new)>(l: Lattice<D>, w: Laws<D>, a: D, b: D, c: D)
    requires Lawful(l, w) && w.ok(a) && w.ok(b) && w.ok(c) && w.leq(a, b) && w.leq(b, c)
    ensures w.leq(a, c)
  {
  }

  /** Only the successors of `v` read its exit state. */
  lemma {:induction false} JoinedFrame<D(!new)>(pb: Problem<D>, outs: seq<D>, u: nat, k: nat, v: nat, d: D)
    requires pb.g.Valid() && |outs| == pb.g.N() && u < pb.g.N() && k <= |pb.g.pred[u]| && v < pb.g.N()
    requires !pb.g.Edge(v, u)
    ensures JoinedTo(pb, outs[v := d], u, k) == JoinedTo(pb, outs, u, k)
  {
    if k > 0 {
      JoinedFrame(pb, outs, u, k - 1, v, d);
      assert pb.g.pred[u][k - 1] in pb.g.pred[u];
    }
  }

  // ------------------------------------------------------------ progress

  ghost function Total(s: seq<nat>): nat {
    if s == [] then 0 else Total(s[..|s| - 1]) + s[|s| - 1]
  }

  lemma {:induction false} TotalUpdate(s: seq<nat>, i: nat, v: nat)
    requires i < |s|
    ensures Total(s[i := v]) == Total(s) - s[i] + v
  {
    var t := s[i := v];
    if i == |s| - 1 {
      assert t[..i] == s[..i];
    } else {
      assert t[..|s| - 1] == s[..|s| - 1][i := v];
      TotalUpdate(s[..|s| - 1], i, v);
    }
  }

  const FORCE_WIDEN_AFTER: nat := 64
  const U32_MAX: nat := 0xFFFF_FFFF

  /** Plain (unwidened) updates a node still has before it must widen. */
  ghost function Slack(headers: set<nat>, updates: seq<nat>): seq<nat> {
    seq(|updates|, u requires 0 <= u < |updates| =>
      if u in headers || updates[u] >= FORCE_WIDEN_AFTER then 0 else FORCE_WIDEN_AFTER - updates[u])
  }

  ghost function Ranks<D>(rank: D -> nat, states: seq<D>): seq<nat> {
    seq(|states|, u requires 0 <= u < |states| => rank(states[u]))
  }

  /** The lexicographic measure of one worklist state, before the worklist's own length. */
  datatype Measure = Measure(slack: nat, coarse: nat, fine: nat)

  ghost function MeasureOf<D>(pb: Problem<D>, w: Laws<D>, updates: seq<nat>, ins: seq<D>): Measure {
    Measure(Total(Slack(pb.headers, updates)), Total(Ranks(w.coarse, ins)), Total(Ranks(w.fine, ins)))
  }

  ghost predicate Smaller(a: Measure, b: Measure) {
    || a.slack < b.slack
    || (a.slack == b.slack && a.coarse < b.coarse)
    || (a.slack == b.slack && a.coarse == b.coarse && a.fine < b.fine)
  }

  /** The new entry state the solver computes for `u`. */
  ghost function NewIn<D>(pb: Problem<D>, updates: seq<nat>, old_in: D, joined: D, u: nat): D
    requires u < |updates|
  {
    if u in pb.headers || updates[u] >= FORCE_WIDEN_AFTER then pb.lat.widen(old_in, joined) else joined
  }

  function SaturatingInc(n: nat): nat {
    if n >= U32_MAX then U32_MAX else n + 1
  }

  /** A changed entry state makes the measure smaller, whatever the transfer functions do. */
  lemma UpdateShrinks<D(!new)>(pb: Problem<D>, w: Laws<D>, updates: seq<nat>, ins: seq<D>, joined: D, u: nat)
    requires WellPosed(pb, w) && |updates| == |ins| == pb.g.N() && u < pb.g.N()
    requires w.ok(ins[u]) && w.ok(joined)
    requires NewIn(pb, updates, ins[u], joined, u) != ins[u]
    ensures Smaller(
              MeasureOf(pb, w, updates[u := SaturatingInc(updates[u])],
                        ins[u := NewIn(pb, updates, ins[u], joined, u)]),
              MeasureOf(pb, w, updates, ins))
  {
    var i := NewIn(pb, updates, ins[u], joined, u);
    var updates' := updates[u := SaturatingInc(updates[u])];
    var s, s' := Slack(pb.headers, updates), Slack(pb.headers, updates');
    assert s' == s[u := s'[u]];
    TotalUpdate(s, u, s'[u]);
    assert Ranks(w.coarse, ins[u := i]) == Ranks(w.coarse, ins)[u := w.coarse(i)];
    TotalUpdate(Ranks(w.coarse, ins), u, w.coarse(i));
    assert Ranks(w.fine, ins[u := i]) == Ranks(w.fine, ins)[u := w.fine(i)];
    TotalUpdate(Ranks(w.fine, ins), u, w.fine(i));
    if u in pb.headers || updates[u] >= FORCE_WIDEN_AFTER {
      assert RankFalls(w, ins[u], i);
    }
  }

  // ------------------------------------------------------------- what was widened

  /**
   One change of an entry state, the `n + 1`-st of node `u`: to the join of its seed and its
   predecessors' contributions, and to a widening by it only at a header or after 64 changes.
   */
  ghost predicate Changes<D(!new)>(pb: Problem<D>, s: Solution<D>, t: Solution<D>, u: nat, n: nat) {
    && pb.g.Valid() && |s.inStates| == |s.outStates| == pb.g.N() && u < pb.g.N()
    && var joined := Joined(pb, s.outStates, u);
       var i := if u in pb.headers || n >= 64 then pb.lat.widen(s.inStates[u], joined) else joined;
       i != s.inStates[u] && t == Solution(s.inStates[u := i], s.outStates[u := pb.transfer(u, i)])
  }

  /** How often the entry state of `u` has changed up to state `k` of the history. */
  ghost function ChangeCount<D>(history: seq<Solution<D>>, u: nat, k: nat): nat
    requires k < |history| && forall i :: 0 <= i < |history| ==> u < |history[i].inStates|
  {
    if k == 0 then 0
    else ChangeCount(history, u, k - 1) + if history[k].inStates[u] != history[k - 1].inStates[u] then 1 else 0
  }

  ghost predicate Sized<D>(pb: Problem<D>, history: seq<Solution<D>>) {
    history != [] && forall i :: 0 <= i < |history| ==> |history[i].inStates| == |history[i].outStates| == pb.g.N()
  }

  ghost predicate ChangesAt<D(!new)>(pb: Problem<D>, history: seq<Solution<D>>, u: nat, k: nat)
    requires Sized(pb, history) && k + 1 < |history|
  {
    u < pb.g.N() && Changes(pb, history[k], history[k + 1], u, ChangeCount(history, u, k))
  }

  ghost predicate SomeChange<D(!new)>(pb: Problem<D>, history: seq<Solution<D>>, k: nat)
    requires Sized(pb, history) && k + 1 < |history|
  {
    exists u: nat :: ChangesAt(pb, history, u, k)
  }

  /** All states a run of the solver goes through, from bottom everywhere, one change at a time. */
  ghost predicate IsHistory<D(!new)>(pb: Problem<D>, history: seq<Solution<D>>) {
    && Sized(pb, history)
    && (forall u: nat :: u < pb.g.N() ==>
          history[0].inStates[u] == pb.lat.bottom && history[0].outStates[u] == pb.lat.bottom)
    && forall k: nat :: k < |history| - 1 ==> SomeChange(pb, history, k)
  }

  /** A node that is no header and has changed fewer than 64 times has exactly the join of what flows into it. */
  ghost predicate JoinsAt<D(!new)>(pb: Problem<D>, sol: Solution<D>, n: nat, u: nat)
    requires pb.g.Valid() && |sol.inStates| == |sol.outStates| == pb.g.N() && u < pb.g.N()
  {
    var joined := Joined(pb, sol.outStates, u);
    u !in pb.headers ==>
      && (n < 64 ==> sol.inStates[u] == joined)
      && (n == 64 ==> sol.inStates[u] == joined || sol.inStates[u] == pb.lat.widen(sol.inStates[u], joined))
  }

  ghost predicate HistoryOf<D(!new)>(pb: Problem<D>, history: seq<Solution<D>>, sol: Solution<D>) {
    && IsHistory(pb, history) && history[|history| - 1] == sol && pb.g.Valid()
    && forall u: nat :: u < pb.g.N() && Reachable(pb.g, pb.entry, u) ==>
         JoinsAt(pb, sol, ChangeCount(history, u, |history| - 1), u)
  }

  /** The solution came about so that widening was applied at headers and after 64 changes only. */
  ghost predicate WidenedLate<D(!new)>(pb: Problem<D>, sol: Solution<D>) {
    exists history: seq<Solution<D>> :: HistoryOf(pb, history, sol)
  }

  /** The counters count the changes, up to their own limit. */
  ghost predicate Counting<D>(pb: Problem<D>, history: seq<Solution<D>>, updates: seq<nat>) {
    && Sized(pb, history) && |updates| == pb.g.N()
    && forall u: nat :: u < pb.g.N() ==> updates[u] == AtMostU32(ChangeCount(history, u, |history| - 1))
  }

  function AtMostU32(n: nat): nat {
    if n > U32_MAX then U32_MAX else n
  }

  ghost predicate Traced<D(!new)>(pb: Problem<D>, history: seq<Solution<D>>, sol: Solution<D>, updates: seq<nat>) {
    IsHistory(pb, history) && history[|history| - 1] == sol && Counting(pb, history, updates)
  }

  /** Nodes outside the worklist have the join of what flows in now. */
  ghost predicate Joining<D(!new)>(pb: Problem<D>, sol: Solution<D>, updates: seq<nat>, work: set<nat>) {
    && pb.g.Valid() && |sol.inStates| == |sol.outStates| == |updates| == pb.g.N()
    && forall u: nat :: u < pb.g.N() && u !in work && Reachable(pb.g, pb.entry, u) ==> JoinsAt(pb, sol, updates[u], u)
  }

  ghost predicate Logged<D(!new)>(pb: Problem<D>, history: seq<Solution<D>>, sol: Solution<D>, updates: seq<nat>,
                                  work: set<nat>) {
    Traced(pb, history, sol, updates) && Joining(pb, sol, updates, work)
  }

  /** What a visit of `u` does to states, counters and worklist. */
  ghost predicate Visited<D(!new)>(pb: Problem<D>, s: Solution<D>, c: seq<nat>, work: set<nat>,
                                   t: Solution<D>, d: seq<nat>, next: set<nat>, u: nat) {
    && pb.g.Valid() && |s.inStates| == |s.outStates| == |c| == pb.g.N() && u < pb.g.N()
    && work - {u} <= next
    && (t.outStates != s.outStates ==> forall v: nat :: pb.g.Edge(u, v) ==> v in next)
    && var i := NewIn(pb, c, s.inStates[u], Joined(pb, s.outStates, u), u);
       if i == s.inStates[u] then t == s && d == c
       else t == Solution(s.inStates[u := i], s.outStates[u := pb.transfer(u, i)]) && d == c[u := SaturatingInc(c[u])]
  }

  lemma {:induction false} CountPrefix<D(!new)>(history: seq<Solution<D>>, t: Solution<D>, u: nat, k: nat)
    requires k < |history| && u < |t.inStates| && forall i :: 0 <= i < |history| ==> u < |history[i].inStates|
    ensures ChangeCount(history + [t], u, k) == ChangeCount(history, u, k)
  {
    if k > 0 {
      CountPrefix(history, t, u, k - 1);
    }
  }

  lemma CountNext<D(!new)>(history: seq<Solution<D>>, t: Solution<D>, u: nat)
    requires history != [] && u < |t.inStates| && forall i :: 0 <= i < |history| ==> u < |history[i].inStates|
    ensures var last := |history| - 1;
            ChangeCount(history + [t], u, |history|) ==
            ChangeCount(history, u, last) + if t.inStates[u] != history[last].inStates[u] then 1 else 0
  {
    CountPrefix(history, t, u, |history| - 1);
  }

  lemma HistoryMore<D(!new)>(pb: Problem<D>, history: seq<Solution<D>>, t: Solution<D>, u: nat)
    requires IsHistory(pb, history) && u < pb.g.N()
    requires Changes(pb, history[|history| - 1], t, u, ChangeCount(history, u, |history| - 1))
    ensures IsHistory(pb, history + [t])
  {
    var more := history + [t];
    hide Changes;
    ChangeSize(pb, history[|history| - 1], t, u, ChangeCount(history, u, |history| - 1));
    forall k: nat | k < |more| - 1 ensures SomeChange(pb, more, k) {
      if k < |history| - 1 {
        assert SomeChange(pb, history, k);
        var v: nat :| ChangesAt(pb, history, v, k);
        CountPrefix(history, t, v, k);
        assert ChangesAt(pb, more, v, k);
      } else {
        CountPrefix(history, t, u, k);
        assert ChangesAt(pb, more, u, k);
      }
    }
  }

  lemma ChangeSize<D(!new)>(pb: Problem<D>, s: Solution<D>, t: Solution<D>, u: nat, n: nat)
    requires Changes(pb, s, t, u, n)
    ensures |t.inStates| == |t.outStates| == pb.g.N()
    ensures forall v: nat :: v < pb.g.N() ==> (t.inStates[v] != s.inStates[v] <==> v == u)
  {
  }

  lemma VisitChanges<D(!new)>(pb: Problem<D>, s: Solution<D>, c: seq<nat>, work: set<nat>,
                              t: Solution<D>, d: seq<nat>, next: set<nat>, u: nat, n: nat)
    requires Visited(pb, s, c, work, t, d, next, u) && t.inStates != s.inStates && c[u] == AtMostU32(n)
    ensures Changes(pb, s, t, u, n) && d == c[u := AtMostU32(n + 1)]
  {
  }

  lemma VisitSame<D(!new)>(pb: Problem<D>, s: Solution<D>, c: seq<nat>, work: set<nat>,
                           t: Solution<D>, d: seq<nat>, next: set<nat>, u: nat)
    requires Visited(pb, s, c, work, t, d, next, u) && t.inStates == s.inStates
    ensures t == s && d == c
  {
    assert s.inStates[u] == t.inStates[u];
  }

  /** A visit that changes something is the history's next change. */
  lemma TraceVisit<D(!new)>(pb: Problem<D>, history: seq<Solution<D>>, s: Solution<D>, c: seq<nat>, work: set<nat>,
                            t: Solution<D>, d: seq<nat>, next: set<nat>, u: nat) returns (more: seq<Solution<D>>)
    requires Traced(pb, history, s, c) && Visited(pb, s, c, work, t, d, next, u) && u < pb.g.N()
    ensures Traced(pb, more, t, d)
  {
    if t.inStates == s.inStates {
      VisitSame(pb, s, c, work, t, d, next, u);
      more := history;
    } else {
      var n := ChangeCount(history, u, |history| - 1);
      VisitChanges(pb, s, c, work, t, d, next, u, n);
      ChangeSize(pb, s, t, u, n);
      hide Visited, Changes, IsHistory;
      more := history + [t];
      HistoryMore(pb, history, t, u);
      forall v: nat | v < pb.g.N() ensures d[v] == AtMostU32(ChangeCount(more, v, |more| - 1)) {
        CountNext(history, t, v);
      }
    }
  }

  /** A visit leaves every node outside the new worklist with the join of what flows in. */
  lemma JoinVisit<D(!new)>(pb: Problem<D>, s: Solution<D>, c: seq<nat>, work: set<nat>,
                           t: Solution<D>, d: seq<nat>, next: set<nat>, u: nat)
    requires Joining(pb, s, c, work) && Visited(pb, s, c, work, t, d, next, u)
    ensures Joining(pb, t, d, next)
  {
    hide Reachable, Joined;
    forall v: nat | v < pb.g.N() && v !in next && Reachable(pb.g, pb.entry, v) ensures JoinsAt(pb, t, d[v], v) {
      if t.outStates != s.outStates {
        JoinedSame(pb, s.outStates, v, u, t.outStates[u]);
      }
      if v != u {
        assert JoinsAt(pb, s, c[v], v);
      }
    }
  }

  lemma LogVisit<D(!new)>(pb: Problem<D>, history: seq<Solution<D>>, s: Solution<D>, c: seq<nat>, work: set<nat>,
                          t: Solution<D>, d: seq<nat>, next: set<nat>, u: nat) returns (more: seq<Solution<D>>)
    requires Logged(pb, history, s, c, work) && Visited(pb, s, c, work, t, d, next, u) && u < pb.g.N()
    ensures Logged(pb, more, t, d, next)
  {
    hide Traced, Joining, Visited;
    JoinVisit(pb, s, c, work, t, d, next, u);
    more := TraceVisit(pb, history, s, c, work, t, d, next, u);
  }

  lemma JoinedSame<D(!new)>(pb: Problem<D>, outs: seq<D>, v: nat, u: nat, d: D)
    requires pb.g.Valid() && |outs| == pb.g.N() && v < pb.g.N() && u < pb.g.N() && !pb.g.Edge(u, v)
    ensures Joined(pb, outs[u := d], v) == Joined(pb, outs, v)
  {
    JoinedFrame(pb, outs, v, |pb.g.pred[v]|, u, d);
  }

  /** The three ways a visit ends. */
  lemma VisitIntro<D(!new)>(pb: Problem<D>, s: Solution<D>, c: seq<nat>, work: set<nat>, u: nat, i: D)
    requires pb.g.Valid() && |s.inStates| == |s.outStates| == |c| == pb.g.N() && u < pb.g.N()
    requires i == NewIn(pb, c, s.inStates[u], Joined(pb, s.outStates, u), u)
    ensures i == s.inStates[u] ==> Visited(pb, s, c, work, s, c, work - {u}, u)
    ensures i != s.inStates[u] ==>
              var d, o := c[u := SaturatingInc(c[u])], pb.transfer(u, i);
              && (o == s.outStates[u] ==>
                    Visited(pb, s, c, work, s.(inStates := s.inStates[u := i]), d, work - {u}, u))
              && forall next: set<nat> :: work - {u} <= next && (forall v: nat :: pb.g.Edge(u, v) ==> v in next) ==>
                   Visited(pb, s, c, work, Solution(s.inStates[u := i], s.outStates[u := o]), d, next, u)
  {
    hide Joined, NewIn;
  }

  lemma TraceStart<D(!new)>(pb: Problem<D>, sol: Solution<D>, updates: seq<nat>, work: set<nat>)
    requires pb.g.Valid() && |sol.inStates| == |sol.outStates| == |updates| == pb.g.N()
    requires forall u :: 0 <= u < pb.g.N() ==>
               sol.inStates[u] == pb.lat.bottom && sol.outStates[u] == pb.lat.bottom && updates[u] == 0
    requires forall u: nat :: Reachable(pb.g, pb.entry, u) ==> u in work
    ensures Logged(pb, [sol], sol, updates, work)
  {
    hide Reachable;
  }

  lemma TraceEnd<D(!new)>(pb: Problem<D>, history: seq<Solution<D>>, sol: Solution<D>, updates: seq<nat>)
    requires Logged(pb, history, sol, updates, {})
    ensures WidenedLate(pb, sol)
  {
    hide Reachable, IsHistory, Joined;
    forall u: nat | u < pb.g.N() && Reachable(pb.g, pb.entry, u)
      ensures JoinsAt(pb, sol, ChangeCount(history, u, |history| - 1), u)
    {
      assert JoinsAt(pb, sol, updates[u], u);
    }
    assert HistoryOf(pb, history, sol);
  }

  // ------------------------------------------------------- one iteration

  lemma NewInCovers<D(!new)>(pb: Problem<D>, w: Laws<D>, updates: seq<nat>, old_in: D, joined: D, u: nat)
    requires WellPosed(pb, w) && u < |updates| && w.ok(old_in) && w.ok(joined)
    ensures w.ok(NewIn(pb, updates, old_in, joined, u)) && w.leq(joined, NewIn(pb, updates, old_in, joined, u))
  {
  }

  /** `u` is popped and its entry state covers its predecessors again; nothing else has changed. */
  lemma Settle<D(!new)>(pb: Problem<D>, w: Laws<D>, sol: Solution<D>, work: set<nat>, u: nat)
    requires Lagging(pb, w, sol, work) && u < pb.g.N() && Covered(pb, w, sol, u)
    ensures Lagging(pb, w, sol, work - {u})
  {
  }

  lemma EnterBlock<D(!new)>(pb: Problem<D>, w: Laws<D>, sol: Solution<D>, work: set<nat>, u: nat, i: D)
    requires WellPosed(pb, w) && Lagging(pb, w, sol, work) && u < pb.g.N() && u in work
    requires Reachable(pb.g, pb.entry, u) && w.ok(i) && w.leq(Joined(pb, sol.outStates, u), i)
    requires pb.transfer(u, i) == sol.outStates[u]
    ensures Lagging(pb, w, sol.(inStates := sol.inStates[u := i]), work - {u})
  {
    hide Reachable;
    var sol' := sol.(inStates := sol.inStates[u := i]);
    assert Transferred(pb, i, sol.outStates[u], u);
    forall v: nat | v < pb.g.N() && v !in work - {u} && Reachable(pb.g, pb.entry, v)
      ensures Covered(pb, w, sol', v)
    {
      if v != u {
        assert Covered(pb, w, sol, v);
      }
    }
  }

  /** Both states of `u` change; its successors join the worklist. */
  lemma LeaveBlock<D(!new)>(pb: Problem<D>, w: Laws<D>, sol: Solution<D>, work: set<nat>, u: nat, i: D, more: set<nat>)
    requires WellPosed(pb, w) && Lagging(pb, w, sol, work) && u < pb.g.N() && u in work
    requires Reachable(pb.g, pb.entry, u) && w.ok(i) && w.leq(Joined(pb, sol.outStates, u), i)
    requires forall s: nat :: pb.g.Edge(u, s) ==> s in more
    ensures Lagging(pb, w,
              Solution(sol.inStates[u := i], sol.outStates[u := pb.transfer(u, i)]), (work - {u}) + more)
  {
    hide Reachable;
    var sol' := Solution(sol.inStates[u := i], sol.outStates[u := pb.transfer(u, i)]);
    forall v: nat | v < pb.g.N() && v !in (work - {u}) + more && Reachable(pb.g, pb.entry, v)
      ensures Covered(pb, w, sol', v)
    {
      JoinedFrame(pb, sol.outStates, v, |pb.g.pred[v]|, u, pb.transfer(u, i));
      if v != u {
        assert Covered(pb, w, sol, v);
      }
    }
  }

  /** All that holds between two visits. */
  ghost predicate Kept<D(!new)>(pb: Problem<D>, w: Laws<D>, history: seq<Solution<D>>, sol: Solution<D>,
                                updates: seq<nat>,
                                work: set<nat>) {
    Lagging(pb, w, sol, work) && Logged(pb, history, sol, updates, work)
  }

  lemma VisitKept<D(!new)>(pb: Problem<D>, w: Laws<D>, history: seq<Solution<D>>, s: Solution<D>, c: seq<nat>,
                           work: set<nat>, t: Solution<D>, d: seq<nat>, next: set<nat>, u: nat)
    returns (more: seq<Solution<D>>)
    requires Kept(pb, w, history, s, c, work) && Visited(pb, s, c, work, t, d, next, u) && u < pb.g.N()
    requires Lagging(pb, w, t, next)
    ensures Kept(pb, w, more, t, d, next)
  {
    hide Lagging, Logged, Visited;
    more := LogVisit(pb, history, s, c, work, t, d, next, u);
  }

  lemma KeptLagging<D(!new)>(pb: Problem<D>, w: Laws<D>, history: seq<Solution<D>>, sol: Solution<D>, updates: seq<nat>,
                             work: set<nat>)
    requires Kept(pb, w, history, sol, updates, work)
    ensures Lagging(pb, w, sol, work) && (work == {} ==> PostFixpoint(pb, w, sol) && WidenedLate(pb, sol))
  {
    hide Lagging, Logged, WidenedLate;
    if work == {} {
      TraceEnd(pb, history, sol, updates);
    }
  }

  lemma StartKept<D(!new)>(pb: Problem<D>, w: Laws<D>, sol: Solution<D>, updates: seq<nat>, work: set<nat>)
    requires WellPosed(pb, w) && |sol.inStates| == |sol.outStates| == |updates| == pb.g.N()
    requires forall u :: 0 <= u < pb.g.N() ==>
               sol.inStates[u] == pb.lat.bottom && sol.outStates[u] == pb.lat.bottom && updates[u] == 0
    requires forall u: nat :: Reachable(pb.g, pb.entry, u) ==> u in work
    ensures Kept(pb, w, [sol], sol, updates, work)
  {
    PosedFacts(pb, w);
    hide Reachable, WellPosed, Lagging, Logged;
    StartState(pb, w, sol, work);
    TraceStart(pb, sol, updates, work);
  }

  lemma StartState<D(!new)>(pb: Problem<D>, w: Laws<D>, sol: Solution<D>, work: set<nat>)
    requires WellPosed(pb, w) && |sol.inStates| == |sol.outStates| == pb.g.N()
    requires forall u :: 0 <= u < pb.g.N() ==> sol.inStates[u] == pb.lat.bottom && sol.outStates[u] == pb.lat.bottom
    requires forall u: nat :: Reachable(pb.g, pb.entry, u) ==> u in work
    ensures Lagging(pb, w, sol, work)
  {
    hide Reachable, Lawful;
    BottomOk(pb.lat, w);
  }

  lemma BottomOk<D(!new)>(l: Lattice<D>, w: Laws<D>)
    requires Lawful(l, w)
    ensures w.ok(l.bottom)
  {
  }

  /** The worklist nodes are reachable and flagged. */
  ghost predicate Queued<D>(pb: Problem<D>, worklist: seq<nat>, flags: seq<bool>) {
    && |flags| == pb.g.N()
    && (forall u: nat :: u < |flags| ==> (flags[u] <==> u in Elems(worklist)))
    && (forall u: nat :: u in Elems(worklist) ==> u < pb.g.N() && Reachable(pb.g, pb.entry, u))
    && Distinct(worklist)
  }

  lemma PopFront<D(!new)>(pb: Problem<D>, worklist: seq<nat>, flags: seq<bool>)
    requires Queued(pb, worklist, flags) && worklist != []
    ensures |flags| == pb.g.N() && worklist[0] < pb.g.N() && Reachable(pb.g, pb.entry, worklist[0])
    ensures worklist[0] in Elems(worklist)
    ensures Queued(pb, worklist[1..], flags[worklist[0] := false])
    ensures Elems(worklist[1..]) == Elems(worklist) - {worklist[0]}
  {
    hide Reachable;
    var rest := worklist[1..];
    assert worklist[0] in Elems(worklist);
    assert worklist == [worklist[0]] + rest;
    assert worklist[0] !in rest;
    assert Elems(rest) == Elems(worklist) - {worklist[0]};
    assert Distinct(rest);
    assert forall u: nat :: u in Elems(rest) ==> u in Elems(worklist);
    forall u: nat | u < |flags| ensures flags[worklist[0] := false][u] <==> u in Elems(rest) {
      assert flags[u] <==> u in Elems(worklist);
    }
  }

  lemma PushBack<D(!new)>(pb: Problem<D>, worklist: seq<nat>, flags: seq<bool>, u: nat, s: nat)
    requires pb.g.Valid() && Queued(pb, worklist, flags) && u < pb.g.N() && pb.g.Edge(u, s)
    requires Reachable(pb.g, pb.entry, u) && s < pb.g.N()
    ensures !flags[s] ==> Queued(pb, worklist + [s], flags[s := true])
    ensures Elems(worklist + [s]) == Elems(worklist) + {s}
    ensures flags[s] ==> Elems(worklist) == Elems(worklist) + {s}
  {
    ReachStep(pb.g, pb.entry, u, s);
    hide Reachable;
    assert Elems(worklist + [s]) == Elems(worklist) + {s};
    assert flags[s] <==> s in Elems(worklist);
    if !flags[s] {
      assert s !in worklist;
      assert Distinct(worklist + [s]);
      forall v: nat | v < |flags| ensures flags[s := true][v] <==> v in Elems(worklist + [s]) {
        assert flags[v] <==> v in Elems(worklist);
      }
    }
  }

  /** Seed the worklist with the reachable nodes in reverse postorder. */
  method SeedWorklist<D(!new)>(pb: Problem<D>, flags: array<bool>) returns (worklist: seq<nat>)
    requires pb.g.Valid() && pb.entry < pb.g.N() && flags.Length == pb.g.N()
    requires forall u :: 0 <= u < flags.Length ==> !flags[u]
    modifies flags
    ensures Queued(pb, worklist, flags[..])
    ensures forall u: nat :: Reachable(pb.g, pb.entry, u) ==> u in Elems(worklist)
  {
    var post := Postorder(pb.g, pb.entry);
    assert forall i :: 0 <= i < |post| ==> post[i] in post && Reachable(pb.g, pb.entry, post[i]);
    assert forall u: nat :: Reachable(pb.g, pb.entry, u) ==> u in post;
    assert forall i, j :: 0 <= i < j < |post| ==> post[i] != post[j];
    hide Reachable, IsPostorder;
    ReachableInRange(pb.g, pb.entry, post);
    worklist := [];
    for k := 0 to |post|
      invariant |worklist| == k && forall i :: 0 <= i < k ==> worklist[i] == post[|post| - 1 - i]
      invariant Queued(pb, worklist, flags[..])
    {
      var node := post[|post| - 1 - k];
      worklist := worklist + [node];
      flags[node] := true;
    }
    forall u: nat | Reachable(pb.g, pb.entry, u) ensures u in Elems(worklist) {
      var i :| 0 <= i < |post| && post[i] == u;
      assert worklist[|post| - 1 - i] == u;
    }
  }

  lemma ReachableInRange(g: Graph, root: nat, order: seq<nat>)
    requires g.Valid() && forall i :: 0 <= i < |order| ==> Reachable(g, root, order[i])
    ensures forall i :: 0 <= i < |order| ==> order[i] < g.N()
  {
    forall i | 0 <= i < |order| ensures order[i] < g.N() {
      var p :| PathFromTo(g, p, root, order[i]);
      if |p| > 1 {
        assert g.Edge(p[|p| - 2], p[|p| - 1]);
      }
    }
  }

  /** Join the predecessors of `u` in list order. */
  method JoinPredecessors<D(!new)>(pb: Problem<D>, outs: array<D>, u: nat) returns (joined: D)
    requires pb.g.Valid() && outs.Length == pb.g.N() && u < pb.g.N()
    ensures joined == Joined(pb, outs[..], u)
  {
    joined := if u == pb.entry then pb.entryState else pb.lat.bottom;
    for k := 0 to |pb.g.pred[u]|
      invariant joined == JoinedTo(pb, outs[..], u, k)
    {
      var p := pb.g.pred[u][k];
      joined := pb.lat.join(joined, pb.edge(p, u, outs[p]));
    }
  }

  /** Queue the successors of `u` that are not queued yet. */
  method PushSuccessors<D(!new)>(pb: Problem<D>, u: nat, worklist0: seq<nat>, flags: array<bool>)
    returns (worklist: seq<nat>)
    requires pb.g.Valid() && Queued(pb, worklist0, flags[..]) && u < pb.g.N() && Reachable(pb.g, pb.entry, u)
    modifies flags
    ensures Queued(pb, worklist, flags[..])
    ensures Elems(worklist0) <= Elems(worklist)
    ensures forall s: nat :: pb.g.Edge(u, s) ==> s in Elems(worklist)
  {
    QueuedSize(pb, worklist0, flags[..]);
    hide Queued, Reachable, Elems;
    worklist := worklist0;
    for k := 0 to |pb.g.succ[u]|
      invariant Queued(pb, worklist, flags[..])
      invariant Elems(worklist0) <= Elems(worklist)
      invariant forall j :: 0 <= j < k ==> pb.g.succ[u][j] in Elems(worklist)
    {
      var s := pb.g.succ[u][k];
      PushBack(pb, worklist, flags[..], u, s);
      if !flags[s] {
        worklist := worklist + [s];
        flags[s] := true;
      }
    }
  }

  lemma QueuedSize<D(!new)>(pb: Problem<D>, worklist: seq<nat>, flags: seq<bool>)
    requires Queued(pb, worklist, flags)
    ensures |flags| == pb.g.N()
  {
  }

  /** What one recomputation of `u` may do to the states and counters. */
  ghost predicate Entered<D(!new)>(pb: Problem<D>, w: Laws<D>, sol: Solution<D>, updates: seq<nat>, u: nat, i: D)
    requires pb.g.Valid() && |sol.inStates| == |sol.outStates| == |updates| == pb.g.N() && u < pb.g.N()
  {
    && w.ok(i) && w.leq(Joined(pb, sol.outStates, u), i)
    && (i == sol.inStates[u] ==> Covered(pb, w, sol, u))
    && (i != sol.inStates[u] ==>
          Smaller(MeasureOf(pb, w, updates[u := SaturatingInc(updates[u])], sol.inStates[u := i]),
                  MeasureOf(pb, w, updates, sol.inStates)))
  }

  /** The new entry state of `u`: joined, or widened at a header or after too many visits. */
  method NewEntry<D(!new)>(pb: Problem<D>, ghost w: Laws<D>, u: nat, ghost work: set<nat>,
                           ins: array<D>, outs: array<D>, updates: array<nat>)
    returns (newIn: D)
    requires WellPosed(pb, w) && updates.Length == pb.g.N() && u < pb.g.N()
    requires Lagging(pb, w, Solution(ins[..], outs[..]), work)
    ensures Entered(pb, w, Solution(ins[..], outs[..]), updates[..], u, newIn)
    ensures newIn == NewIn(pb, updates[..], ins[u], Joined(pb, outs[..], u), u)
  {
    ghost var sol := Solution(ins[..], outs[..]);
    PosedFacts(pb, w);
    LaggingFacts(pb, w, sol, work, u);
    hide Lagging, WellPosed, MeasureOf, Joined, Smaller, Covered;
    var joined := JoinPredecessors(pb, outs, u);
    NewInCovers(pb, w, updates[..], ins[u], joined, u);
    newIn := if u in pb.headers || updates[u] >= FORCE_WIDEN_AFTER then pb.lat.widen(ins[u], joined) else joined;
    if newIn != sol.inStates[u] {
      UpdateShrinks(pb, w, updates[..], ins[..], joined, u);
    } else {
      SettleFacts(pb, w, sol, u, newIn);
    }
  }

  lemma EnteredFacts<D(!new)>(pb: Problem<D>, w: Laws<D>, sol: Solution<D>, updates: seq<nat>, u: nat, i: D)
    requires pb.g.Valid() && |sol.inStates| == |sol.outStates| == |updates| == pb.g.N() && u < pb.g.N()
    requires Entered(pb, w, sol, updates, u, i)
    ensures w.ok(i) && w.leq(Joined(pb, sol.outStates, u), i)
    ensures i == sol.inStates[u] ==> Covered(pb, w, sol, u)
  {
  }

  /** Recompute the entry state of the popped node `u` and pass on what changed. */
  method Revisit<D(==,!new)>(pb: Problem<D>, ghost w: Laws<D>, u: nat, ghost work: set<nat>, worklist0: seq<nat>,
                             ins: array<D>, outs: array<D>, updates: array<nat>, flags: array<bool>)
    returns (worklist: seq<nat>)
    requires ins != outs && updates as object != ins && updates as object != outs
    requires flags as object != ins && flags as object != outs && flags as object != updates
    requires WellPosed(pb, w) && updates.Length == pb.g.N() && u < pb.g.N()
    requires Lagging(pb, w, Solution(ins[..], outs[..]), work) && u in work && Reachable(pb.g, pb.entry, u)
    requires Queued(pb, worklist0, flags[..]) && Elems(worklist0) == work - {u}
    modifies ins, outs, updates, flags
    ensures Lagging(pb, w, Solution(ins[..], outs[..]), Elems(worklist))
    ensures Queued(pb, worklist, flags[..])
    ensures Visited(pb, old(Solution(ins[..], outs[..])), old(updates[..]), work,
                    Solution(ins[..], outs[..]), updates[..], Elems(worklist), u)
    ensures Smaller(MeasureOf(pb, w, updates[..], ins[..]), old(MeasureOf(pb, w, updates[..], ins[..]))) ||
            (worklist == worklist0 && updates[..] == old(updates[..]) && ins[..] == old(ins[..]))
  {
    ghost var sol0 := Solution(ins[..], outs[..]);
    ghost var updates0 := updates[..];
    PosedFacts(pb, w);
    LaggingFacts(pb, w, sol0, work, u);
    hide Lagging, WellPosed, Queued, Reachable, MeasureOf, Joined, Elems, Smaller, Covered, Visited;
    worklist := worklist0;
    var newIn := NewEntry(pb, w, u, work, ins, outs, updates);
    EnteredFacts(pb, w, sol0, updates0, u, newIn);
    VisitIntro(pb, sol0, updates0, work, u, newIn);
    if newIn == ins[u] {
      Settle(pb, w, sol0, work, u);
      return;
    }
    updates[u] := SaturatingInc(updates[u]);
    assert updates[..] == updates0[u := SaturatingInc(updates0[u])];
    ins[u] := newIn;
    assert ins[..] == sol0.inStates[u := newIn];
    var newOut := pb.transfer(u, newIn);
    if newOut == outs[u] {
      EnterBlock(pb, w, sol0, work, u, newIn);
      return;
    }
    outs[u] := newOut;
    assert outs[..] == sol0.outStates[u := newOut];
    worklist := PushSuccessors(pb, u, worklist, flags);
    LeaveBlock(pb, w, sol0, work, u, newIn, Elems(worklist));
    assert (work - {u}) + Elems(worklist) == Elems(worklist);
  }

  /** Solve a forward dataflow problem by worklist iteration with widening. */
  method Solve<D(==,!new)>(pb: Problem<D>, ghost w: Laws<D>) returns (sol: Solution<D>)
    requires WellPosed(pb, w)
    ensures PostFixpoint(pb, w, sol)
    ensures WidenedLate(pb, sol)
  {
    assert Elems([]) == {};
    PosedFacts(pb, w);
    hide Lagging, WellPosed, Queued, Reachable, MeasureOf, Elems, Visited, Kept, PostFixpoint, WidenedLate;
    var n := pb.g.N();
    var ins := new D[n](_ => pb.lat.bottom);
    var outs := new D[n](_ => pb.lat.bottom);
    var inWorklist := new bool[n](_ => false);
    var updates := new nat[n](_ => 0);
    var worklist := SeedWorklist(pb, inWorklist);
    StartKept(pb, w, Solution(ins[..], outs[..]), updates[..], Elems(worklist));
    ghost var history := [Solution(ins[..], outs[..])];
    ghost var ms := MeasureOf(pb, w, updates[..], ins[..]);
    while worklist != []
      invariant Kept(pb, w, history, Solution(ins[..], outs[..]), updates[..], Elems(worklist))
      invariant Queued(pb, worklist, inWorklist[..])
      invariant ms == MeasureOf(pb, w, updates[..], ins[..])
      decreases ms.slack, ms.coarse, ms.fine, |worklist|
    {
      ghost var work := Elems(worklist);
      ghost var sol0, updates0 := Solution(ins[..], outs[..]), updates[..];
      KeptLagging(pb, w, history, sol0, updates0, work);
      PopFront(pb, worklist, inWorklist[..]);
      var u := worklist[0];
      worklist := worklist[1..];
      inWorklist[u] := false;
      worklist := Revisit(pb, w, u, work, worklist, ins, outs, updates, inWorklist);
      ms := MeasureOf(pb, w, updates[..], ins[..]);
      history := LogVisit(pb, history, sol0, updates0, work, Solution(ins[..], outs[..]), updates[..], Elems(worklist),
                          u);
    }
    sol := Solution(ins[..], outs[..]);
    KeptLagging(pb, w, history, sol, updates[..], {});
  }

  lemma SettleFacts<D(!new)>(pb: Problem<D>, w: Laws<D>, sol: Solution<D>, u: nat, i: D)
    requires pb.g.Valid() && |sol.inStates| == |sol.outStates| == pb.g.N() && u < pb.g.N()
    requires w.leq(Joined(pb, sol.outStates, u), i) && i == sol.inStates[u]
    ensures Covered(pb, w, sol, u)
  {
  }

  lemma PosedFacts<D(!new)>(pb: Problem<D>, w: Laws<D>)
    requires WellPosed(pb, w)
    ensures pb.g.Valid() && pb.entry < pb.g.N()
  {
  }

  lemma LaggingFacts<D(!new)>(pb: Problem<D>, w: Laws<D>, sol: Solution<D>, work: set<nat>, u: nat)
    requires WellPosed(pb, w) && Lagging(pb, w, sol, work) && u < pb.g.N()
    ensures |sol.inStates| == |sol.outStates| == pb.g.N()
    ensures w.ok(sol.inStates[u]) && w.ok(Joined(pb, sol.outStates, u))
  {
    JoinedOk(pb, w, sol.outStates, u, |pb.g.pred[u]|);
  }
}
