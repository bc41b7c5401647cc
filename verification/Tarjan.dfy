/**
 The strongly connected components of a graph, found with an explicit stack of
 half-explored nodes (crates/absint/src/pointsto.rs:884-952).

 The invariant has four parts: which nodes are on the component stack, how the
 open frames lie on it, what the low marks promise, and which edges of closed
 nodes lead where. Each turn of the loop keeps the parts one by one.
 */
module Tarjan {
  import opened Wrappers
  import opened Graphs

  /** Visit numbers, low links, the component stack, the components closed so far, and the open frames. */
  datatype Search = Search(index: seq<Option<nat>>, low: seq<nat>, onStack: seq<bool>, stack: seq<nat>,
                           comp: seq<Option<nat>>, ncomp: nat, idx: nat, dfs: seq<(nat, nat)>)

  /** The visit number, or -1 before the visit. */
  function Ix(t: Search, v: nat): int {
    if v < |t.index| && t.index[v].Some? then t.index[v].value else -1
  }

  ghost predicate On(t: Search, v: nat) {
    v in t.stack
  }

  ghost predicate InDfs(t: Search, v: nat) {
    exists i: nat :: i < |t.dfs| && t.dfs[i].0 == v
  }

  /** Edge `k` of `w` has been dealt with; the last edge of an inner frame is still being followed. */
  ghost predicate Explored(t: Search, w: nat, k: nat) {
    forall i: nat :: i < |t.dfs| && t.dfs[i].0 == w ==> if i == |t.dfs| - 1 then k < t.dfs[i].1 else k + 1 < t.dfs[i].1
  }

  // ------------------------------------------------------------ invariants

  ghost predicate Sized(n: nat, t: Search) {
    |t.index| == |t.low| == |t.onStack| == |t.comp| == n
  }

  ghost predicate Shape(n: nat, t: Search) {
    && Sized(n, t)
    && (forall v: nat :: v < n ==> Ix(t, v) < t.idx)
    && (forall i: nat :: i < |t.stack| ==> t.stack[i] < n && Ix(t, t.stack[i]) >= 0)
    && (forall i: nat, j: nat :: i < j < |t.stack| ==> Ix(t, t.stack[i]) < Ix(t, t.stack[j]))
    && (forall v: nat :: v < n ==> (t.onStack[v] <==> On(t, v)))
    && (forall v: nat :: v < n ==> (Ix(t, v) >= 0 <==> On(t, v) || t.comp[v].Some?))
    && (forall v: nat :: v < n && t.comp[v].Some? ==> !On(t, v) && t.comp[v].value < t.ncomp)
  }

  /** An inner frame is open and follows the edge to the frame above it. */
  ghost predicate Inner(g: Graph, t: Search, i: nat)
    requires i + 1 < |t.dfs| && t.dfs[i].0 < g.N() && t.dfs[i].1 <= |g.succ[t.dfs[i].0]|
  {
    On(t, t.dfs[i].0) && t.dfs[i].1 >= 1 && g.succ[t.dfs[i].0][t.dfs[i].1 - 1] == t.dfs[i + 1].0
  }

  ghost predicate Frames(g: Graph, t: Search) {
    && (forall i: nat :: i < |t.dfs| ==> t.dfs[i].0 < g.N() && t.dfs[i].1 <= |g.succ[t.dfs[i].0]|)
    && (forall i: nat {:trigger Inner(g, t, i)} :: i + 1 < |t.dfs| ==> Inner(g, t, i))
    && (forall i: nat, j: nat :: i < j < |t.dfs| && On(t, t.dfs[j].0) ==> Ix(t, t.dfs[i].0) < Ix(t, t.dfs[j].0))
    && (t.dfs != [] ==> var top := t.dfs[|t.dfs| - 1];
                        On(t, top.0) || (Ix(t, top.0) < 0 && top.1 == 0))
  }

  /** Everything stacked since a frame opened is reachable from it. */
  ghost predicate Descends(g: Graph, t: Search) {
    forall i: nat, w: nat :: i < |t.dfs| && On(t, t.dfs[i].0) && On(t, w) && Ix(t, t.dfs[i].0) <= Ix(t, w) ==>
      Reachable(g, t.dfs[i].0, w)
  }

  ghost predicate LowWitness(g: Graph, t: Search, w: nat)
    requires w < |t.low|
  {
    exists u: nat :: On(t, u) && Ix(t, u) == t.low[w] && Reachable(g, w, u)
  }

  /** A low link is the number of some stacked node the node reaches. */
  ghost predicate Lows(g: Graph, t: Search) {
    forall w: nat :: On(t, w) && w < |t.low| ==> t.low[w] <= Ix(t, w) && LowWitness(g, t, w)
  }

  /** A finished node still stacked reaches back below itself. */
  ghost predicate Pending(t: Search) {
    forall w: nat :: On(t, w) && w < |t.low| && !InDfs(t, w) ==> t.low[w] < Ix(t, w)
  }

  /** Frame `i` is the innermost open frame below the finished node `w`. */
  ghost predicate Owns(t: Search, i: nat, w: nat) {
    && i < |t.dfs| && On(t, t.dfs[i].0) && On(t, w) && !InDfs(t, w) && Ix(t, t.dfs[i].0) < Ix(t, w)
    && (i + 1 == |t.dfs| || !On(t, t.dfs[i + 1].0) || Ix(t, w) < Ix(t, t.dfs[i + 1].0))
  }

  ghost predicate LowBelow(t: Search, i: nat, w: nat) {
    i < |t.dfs| && t.dfs[i].0 < |t.low| && w < |t.low| && t.low[t.dfs[i].0] <= t.low[w]
  }

  /** The low link of the innermost open frame below a finished node is no larger than the node's. */
  ghost predicate Owned(t: Search) {
    forall i: nat, w: nat {:trigger Owns(t, i, w)} :: Owns(t, i, w) ==> LowBelow(t, i, w)
  }

  ghost predicate EdgeSeen(g: Graph, t: Search, w: nat, k: nat)
    requires w < |g.succ| && k < |g.succ[w]| && w < |t.low|
  {
    var x := g.succ[w][k];
    Ix(t, x) >= 0 && (On(t, x) ==> t.low[w] <= Ix(t, x))
  }

  ghost predicate EdgesSeen(g: Graph, t: Search) {
    forall w: nat, k: nat :: On(t, w) && w < |g.succ| && w < |t.low| && k < |g.succ[w]| && Explored(t, w, k) ==>
      EdgeSeen(g, t, w, k)
  }

  /** Closed components are mutually reachable, and edges lead only to components closed no later. */
  ghost predicate Grouped(g: Graph, comp: seq<Option<nat>>) {
    forall u: nat, v: nat :: u < |comp| && v < |comp| && comp[u].Some? && comp[u] == comp[v] ==> Reachable(g, u, v)
  }

  ghost predicate Downward(g: Graph, comp: seq<Option<nat>>) {
    forall w: nat, k: nat :: w < |comp| && w < |g.succ| && comp[w].Some? && k < |g.succ[w]| ==>
      g.succ[w][k] < |comp| && comp[g.succ[w][k]].Some? && comp[g.succ[w][k]].value <= comp[w].value
  }

  ghost predicate WellFormed(g: Graph) {
    forall i: nat, k: nat :: i < |g.succ| && k < |g.succ[i]| ==> g.succ[i][k] < |g.succ|
  }

  ghost predicate Inv(g: Graph, t: Search) {
    && WellFormed(g) && Shape(g.N(), t) && Frames(g, t) && Descends(g, t) && Lows(g, t) && Pending(t) && Owned(t)
    && EdgesSeen(g, t) && Grouped(g, t.comp) && Downward(g, t.comp)
  }

  // ------------------------------------------------------------ steps

  function Top(t: Search): (nat, nat)
    requires t.dfs != []
  {
    t.dfs[|t.dfs| - 1]
  }

  /** First arrival at the top node: number it and stack it. */
  function Open(t: Search): Search
    requires t.dfs != [] && Top(t).0 < |t.index| == |t.low| == |t.onStack|
  {
    var v := Top(t).0;
    t.(index := t.index[v := Some(t.idx)], low := t.low[v := t.idx], idx := t.idx + 1, stack := t.stack + [v],
       onStack := t.onStack[v := true])
  }

  function Advanced(t: Search): Search
    requires t.dfs != []
  {
    t.(dfs := t.dfs[|t.dfs| - 1 := (Top(t).0, Top(t).1 + 1)])
  }

  function Descend(t: Search, w: nat): Search
    requires t.dfs != []
  {
    var t1 := Advanced(t);
    t1.(dfs := t1.dfs + [(w, 0)])
  }

  function Min(a: nat, b: nat): nat {
    if a <= b then a else b
  }

  function LookBack(t: Search, w: nat): Search
    requires t.dfs != [] && Top(t).0 < |t.low| && Ix(t, w) >= 0
  {
    var v := Top(t).0;
    Advanced(t).(low := t.low[v := Min(t.low[v], Ix(t, w))])
  }

  /** Leave the top frame, passing its low link to its parent. */
  function Leave(t: Search): Search
    requires t.dfs != [] && Top(t).0 < |t.low| && (|t.dfs| > 1 ==> t.dfs[|t.dfs| - 2].0 < |t.low|)
  {
    var v := Top(t).0;
    var t1 := t.(dfs := t.dfs[..|t.dfs| - 1]);
    if t1.dfs == [] then t1 else t1.(low := t.low[Top(t1).0 := Min(t.low[Top(t1).0], t.low[v])])
  }

  // ------------------------------------------------------------ steps keep the invariant

  lemma StackUnique(n: nat, t: Search, u: nat, v: nat)
    requires Shape(n, t) && On(t, u) && On(t, v) && Ix(t, u) == Ix(t, v)
    ensures u == v
  {
    var i: nat :| i < |t.stack| && t.stack[i] == u;
    var j: nat :| j < |t.stack| && t.stack[j] == v;
  }

  lemma OpenShape(n: nat, t: Search)
    requires Shape(n, t) && t.dfs != [] && Top(t).0 < n && Ix(t, Top(t).0) < 0
    ensures Shape(n, Open(t))
    ensures forall v: nat :: On(Open(t), v) <==> On(t, v) || v == Top(t).0
    ensures forall v: nat :: Ix(Open(t), v) == if v == Top(t).0 then t.idx else Ix(t, v)
  {
    var t', v := Open(t), Top(t).0;
    assert !On(t, v);
    forall x: nat ensures On(t', x) <==> On(t, x) || x == v {
    }
    forall x: nat ensures Ix(t', x) == if x == v then t.idx else Ix(t, x) {
    }
    hide Ix;
  }

  /** The frame under the top reaches it, and so does every frame. */
  lemma FramesReachTop(g: Graph, t: Search, i: nat)
    requires Frames(g, t) && Descends(g, t) && WellFormed(g) && i < |t.dfs| && On(t, t.dfs[i].0)
    ensures Reachable(g, t.dfs[i].0, Top(t).0)
  {
    var k := |t.dfs| - 1;
    if i == k {
      ReachRefl(g, t.dfs[i].0);
    } else {
      var p := t.dfs[k - 1];
      assert Inner(g, t, k - 1);
      assert On(t, p.0) && g.succ[p.0][p.1 - 1] == Top(t).0;
      assert Ix(t, t.dfs[i].0) <= Ix(t, p.0);
      ReachStep(g, t.dfs[i].0, p.0, Top(t).0);
    }
  }

  lemma OpenKeeps(g: Graph, t: Search)
    requires Inv(g, t) && t.dfs != [] && Top(t).0 < g.N() && Ix(t, Top(t).0) < 0
    ensures Inv(g, Open(t)) && On(Open(t), Top(t).0)
  {
    var t', v := Open(t), Top(t).0;
    OpenShape(g.N(), t);
    assert Descends(g, t') by {
      OpenDescends(g, t);
    }
    assert Lows(g, t') by {
      OpenLows(g, t);
    }
    OpenRest(g, t);
  }

  lemma StackedBelow(n: nat, t: Search)
    requires Shape(n, t)
    ensures |t.low| == n && forall w: nat :: On(t, w) ==> w < n && 0 <= Ix(t, w) < t.idx
  {
    forall w: nat | On(t, w) ensures w < n && 0 <= Ix(t, w) < t.idx {
      var i: nat :| i < |t.stack| && t.stack[i] == w;
    }
  }

  lemma OpenDescends(g: Graph, t: Search)
    requires Inv(g, t) && t.dfs != [] && Top(t).0 < g.N() && Ix(t, Top(t).0) < 0
    ensures Descends(g, Open(t))
  {
    var t', v := Open(t), Top(t).0;
    OpenShape(g.N(), t);
    StackedBelow(g.N(), t);
    assert t'.dfs == t.dfs;
    forall i: nat, w: nat | i < |t'.dfs| && On(t', t'.dfs[i].0) && On(t', w) && Ix(t', t'.dfs[i].0) <= Ix(t', w)
      ensures Reachable(g, t'.dfs[i].0, w)
    {
      hide Open, Reachable, Lows, Pending, Owned, EdgesSeen, Grouped, Downward, Shape, On, Ix;
      if t.dfs[i].0 == v {
        assert w == v;
        ReachRefl(g, v);
      } else if w == v {
        FramesReachTop(g, t, i);
      }
    }
  }

  lemma OpenLows(g: Graph, t: Search)
    requires Inv(g, t) && t.dfs != [] && Top(t).0 < g.N() && Ix(t, Top(t).0) < 0
    ensures Lows(g, Open(t))
  {
    var t', v := Open(t), Top(t).0;
    OpenShape(g.N(), t);
    hide Frames, Descends, Pending, Owned, EdgesSeen, Grouped, Downward, Reachable;
    forall w: nat | On(t', w) && w < |t'.low| ensures t'.low[w] <= Ix(t', w) && LowWitness(g, t', w) {
      if w == v {
        ReachRefl(g, v);
        assert On(t', v) && Ix(t', v) == t'.low[v];
      } else {
        assert On(t, w);
        var u: nat :| On(t, u) && Ix(t, u) == t.low[w] && Reachable(g, w, u);
        assert On(t', u) && Ix(t', u) == t'.low[w];
      }
    }
  }

  lemma OpenRest(g: Graph, t: Search)
    requires Inv(g, t) && t.dfs != [] && Top(t).0 < g.N() && Ix(t, Top(t).0) < 0
    ensures Frames(g, Open(t)) && Pending(Open(t)) && Owned(Open(t)) && EdgesSeen(g, Open(t))
    ensures On(Open(t), Top(t).0)
  {
    var t', v := Open(t), Top(t).0;
    OpenShape(g.N(), t);
    StackedBelow(g.N(), t);
    assert t'.dfs == t.dfs && |t'.low| == |t.low| == g.N();
    assert forall w: nat :: w < |t.low| && w != v ==> t'.low[w] == t.low[w];
    assert InDfs(t', v);
    assert forall w: nat :: InDfs(t', w) <==> InDfs(t, w);
    OpenEdges(g, t);
    OpenOwned(g, t, t', v);
    OpenFrames(g, t, t', v);
    hide Open, Descends, Lows, Grouped, Downward, Reachable, InDfs, EdgesSeen, Shape, On, Ix, Owned, Frames;
  }

  lemma OpenFrames(g: Graph, t: Search, t': Search, v: nat)
    requires Frames(g, t) && t.dfs != [] && v == Top(t).0 && t'.dfs == t.dfs
    requires forall w: nat :: On(t', w) <==> On(t, w) || w == v
    requires forall w: nat :: On(t, w) ==> 0 <= Ix(t, w) < t.idx
    requires forall w: nat :: Ix(t', w) == if w == v then t.idx else Ix(t, w)
    requires Ix(t, v) < 0
    ensures Frames(g, t')
  {
    hide On, Ix;
    forall i: nat, j: nat | i < j < |t.dfs| && On(t', t.dfs[j].0) ensures Ix(t', t.dfs[i].0) < Ix(t', t.dfs[j].0) {
      assert Inner(g, t, i);
    }
    forall i: nat | i + 1 < |t.dfs| ensures Inner(g, t', i) {
      assert Inner(g, t, i);
    }
  }

  lemma OpenOwned(g: Graph, t: Search, t': Search, v: nat)
    requires Frames(g, t) && Owned(t) && t.dfs != [] && v == Top(t).0 && t'.dfs == t.dfs && |t'.low| == |t.low|
    requires forall w: nat :: On(t', w) <==> On(t, w) || w == v
    requires forall w: nat :: On(t, w) ==> 0 <= Ix(t, w) < t.idx
    requires forall w: nat :: Ix(t', w) == if w == v then t.idx else Ix(t, w)
    requires forall w: nat :: InDfs(t', w) <==> InDfs(t, w)
    requires forall w: nat :: w < |t.low| && w != v ==> t'.low[w] == t.low[w]
    requires InDfs(t', v) && Ix(t, v) < 0
    ensures Owned(t')
  {
    forall i: nat, w: nat | Owns(t', i, w) ensures LowBelow(t', i, w) {
      hide On, Ix, InDfs;
      assert w != v && On(t, w);
      assert t.dfs[i].0 != v;
      assert Owns(t, i, w);
    }
  }

  lemma FreshUnexplored(t: Search)
    requires t.dfs != [] && Top(t).1 == 0
    ensures forall k: nat :: !Explored(t, Top(t).0, k)
  {
    assert t.dfs[|t.dfs| - 1].0 == Top(t).0;
  }

  lemma OpenEdges(g: Graph, t: Search)
    requires Inv(g, t) && t.dfs != [] && Top(t).0 < g.N() && Ix(t, Top(t).0) < 0
    ensures EdgesSeen(g, Open(t))
  {
    hide *;
    InvParts(g, t);
    OpenShape(g.N(), t);
    StackedBelow(g.N(), t);
    OpenBasics(g, t);
    LowsBounded(g, t);
    FreshUnexplored(Open(t));
    OpenedEdges(g, t, Open(t), Top(t).0);
  }

  lemma OpenBasics(g: Graph, t: Search)
    requires Frames(g, t) && t.dfs != [] && Shape(g.N(), t) && Top(t).0 < g.N() && Ix(t, Top(t).0) < 0
    ensures |t.index| == |t.low| == |t.onStack| == g.N()
    ensures Open(t).dfs == t.dfs && |Open(t).low| == g.N() && Top(Open(t)) == Top(t) && Top(t).1 == 0
    ensures forall w: nat :: w < |t.low| && w != Top(t).0 ==> Open(t).low[w] == t.low[w]
  {
    StackedBelow(g.N(), t);
    hide Ix, On;
  }

  lemma LowsBounded(g: Graph, t: Search)
    requires Lows(g, t)
    ensures forall w: nat :: On(t, w) && w < |t.low| ==> t.low[w] <= Ix(t, w)
  {
    hide On, Ix, LowWitness;
  }

  lemma OpenedEdges(g: Graph, t: Search, t': Search, v: nat)
    requires EdgesSeen(g, t) && t'.dfs == t.dfs && |t'.low| == |t.low| == g.N()
    requires forall w: nat :: On(t', w) <==> On(t, w) || w == v
    requires forall w: nat :: On(t, w) ==> 0 <= Ix(t, w) < t.idx
    requires forall w: nat :: Ix(t', w) == if w == v then t.idx else Ix(t, w)
    requires forall w: nat :: w < |t.low| && w != v ==> t'.low[w] == t.low[w]
    requires forall w: nat :: On(t, w) && w < |t.low| ==> t.low[w] <= Ix(t, w)
    requires Ix(t, v) < 0 && forall k: nat :: !Explored(t', v, k)
    ensures EdgesSeen(g, t')
  {
    hide On, Ix;
    forall w: nat, k: nat | On(t', w) && w < g.N() && k < |g.succ[w]| &&
        Explored(t', w, k) ensures EdgeSeen(g, t', w, k) {
      assert w != v && On(t, w);
      assert Explored(t, w, k);
      assert EdgeSeen(g, t, w, k) && t.low[w] <= Ix(t, w);
    }
  }

  /** Frames pushed or advanced, with nothing else changed but a smaller low link for the top node. */
  lemma AdvancedKeeps(g: Graph, t: Search, low: nat, u: nat)
    requires Inv(g, t) && t.dfs != [] && On(t, Top(t).0) && Top(t).1 < |g.succ[Top(t).0]|
    requires low <= t.low[Top(t).0] && On(t, u) && Ix(t, u) == low && Reachable(g, Top(t).0, u)
    requires var x := g.succ[Top(t).0][Top(t).1]; Ix(t, x) >= 0 && (On(t, x) ==> low <= Ix(t, x))
    ensures Inv(g, Advanced(t).(low := t.low[Top(t).0 := low]))
  {
    var t', v := Advanced(t).(low := t.low[Top(t).0 := low]), Top(t).0;
    StackedBelow(g.N(), t);
    AdvancedMembers(g, t, low);
    SameShape(g.N(), t, t');
    AdvancedFrames(g, t, low);
    LoweredLows(g, t, t', v, u);
    AdvancedEdges(g, t, t', low);
    LoweredRest(t, t', v);
    hide Explored, Lows, Pending, Owned, EdgesSeen, Shape, Frames, On, InDfs, LowWitness, Descends, Grouped, Downward;
  }

  lemma AdvancedMembers(g: Graph, t: Search, low: nat)
    requires t.dfs != [] && Top(t).0 < |t.low|
    ensures var t' := Advanced(t).(low := t.low[Top(t).0 := low]);
            && |t'.dfs| == |t.dfs| && InDfs(t, Top(t).0)
            && (forall w: nat :: (On(t', w) <==> On(t, w)) && Ix(t', w) == Ix(t, w) && (InDfs(t', w) <==> InDfs(t, w)))
            && (forall i: nat :: i < |t.dfs| ==> t'.dfs[i].0 == t.dfs[i].0)
  {
    var t' := Advanced(t).(low := t.low[Top(t).0 := low]);
    assert t.dfs[|t.dfs| - 1].0 == Top(t).0;
    forall w: nat ensures InDfs(t', w) <==> InDfs(t, w) {
      if InDfs(t, w) {
        var i: nat :| i < |t.dfs| && t.dfs[i].0 == w;
        assert t'.dfs[i].0 == w;
      }
    }
  }

  lemma AdvancedFrames(g: Graph, t: Search, low: nat)
    requires Frames(g, t) && Descends(g, t) && t.dfs != [] && Top(t).0 < |t.low| && On(t, Top(t).0)
    requires Top(t).1 < |g.succ[Top(t).0]|
    ensures Frames(g, Advanced(t).(low := t.low[Top(t).0 := low]))
    ensures Descends(g, Advanced(t).(low := t.low[Top(t).0 := low]))
  {
    var t' := Advanced(t).(low := t.low[Top(t).0 := low]);
    AdvancedMembers(g, t, low);
    hide On, Ix, Reachable, InDfs;
    forall i: nat | i + 1 < |t'.dfs| ensures Inner(g, t', i) {
      assert Inner(g, t, i);
    }
  }

  lemma SameShape(n: nat, t: Search, t': Search)
    requires Shape(n, t) && t'.index == t.index && t'.stack == t.stack && t'.onStack == t.onStack && t'.comp == t.comp
    requires t'.ncomp == t.ncomp && t'.idx == t.idx && |t'.low| == |t.low|
    ensures Shape(n, t')
  {
    assert forall v: nat :: Ix(t', v) == Ix(t, v) && (On(t', v) <==> On(t, v));
    hide Ix, On;
  }

  lemma LoweredLows(g: Graph, t: Search, t': Search, v: nat, u: nat)
    requires Lows(g, t) && v < |t.low| == |t'.low| && On(t, u) && Reachable(g, v, u) && Ix(t, u) <= t.low[v]
    requires t'.low == t.low[v := t'.low[v]] && t'.low[v] == Ix(t, u)
    requires forall w: nat :: (On(t', w) <==> On(t, w)) && Ix(t', w) == Ix(t, w)
    ensures Lows(g, t')
  {
    hide Ix, On, Reachable;
    forall w: nat | On(t', w) && w < |t'.low| ensures t'.low[w] <= Ix(t', w) && LowWitness(g, t', w) {
      assert On(t, w) && LowWitness(g, t, w);
      if w == v {
        assert On(t', u) && Ix(t', u) == t'.low[v];
      } else {
        var y: nat :| On(t, y) && Ix(t, y) == t.low[w] && Reachable(g, w, y);
        assert On(t', y) && Ix(t', y) == t'.low[w];
      }
    }
  }

  lemma LoweredRest(t: Search, t': Search, v: nat)
    requires Pending(t) && Owned(t) && v < |t.low| == |t'.low| && t'.low == t.low[v := t'.low[v]]
    requires t'.low[v] <= t.low[v]
    requires forall w: nat :: (On(t', w) <==> On(t, w)) && Ix(t', w) == Ix(t, w) && (InDfs(t', w) <==> InDfs(t, w))
    requires |t'.dfs| == |t.dfs| && forall i: nat :: i < |t.dfs| ==> t'.dfs[i].0 == t.dfs[i].0
    requires InDfs(t, v)
    ensures Pending(t') && Owned(t')
  {
    hide Ix, On, InDfs;
    forall i: nat, w: nat | Owns(t', i, w) ensures LowBelow(t', i, w) {
      assert Owns(t, i, w);
    }
  }

  lemma AdvancedEdges(g: Graph, t: Search, t': Search, low: nat)
    requires Shape(g.N(), t) && Frames(g, t) && EdgesSeen(g, t) && t.dfs != [] && On(t, Top(t).0)
    requires Top(t).1 < |g.succ[Top(t).0]|
    requires t' == Advanced(t).(low := t.low[Top(t).0 := low]) && low <= t.low[Top(t).0]
    requires var x := g.succ[Top(t).0][Top(t).1]; Ix(t, x) >= 0 && (On(t, x) ==> low <= Ix(t, x))
    ensures EdgesSeen(g, t')
  {
    var v, top := Top(t).0, |t.dfs| - 1;
    assert forall w: nat :: (On(t', w) <==> On(t, w)) && Ix(t', w) == Ix(t, w);
    forall w: nat, k: nat | On(t', w) && w < g.N() && w < |t'.low| && k < |g.succ[w]| && Explored(t', w, k)
      ensures EdgeSeen(g, t', w, k)
    {
      hide Ix, On, Shape;
      if w == v && k == Top(t).1 {
      } else {
        forall i: nat | i < |t.dfs| && t.dfs[i].0 == w
          ensures if i == top then k < t.dfs[i].1 else k + 1 < t.dfs[i].1
        {
          assert t'.dfs[i].0 == w;
        }
        assert Explored(t, w, k);
        assert EdgeSeen(g, t, w, k);
      }
    }
  }

  lemma LookBackKeeps(g: Graph, t: Search)
    requires Inv(g, t) && t.dfs != [] && On(t, Top(t).0) && Top(t).1 < |g.succ[Top(t).0]|
    requires On(t, g.succ[Top(t).0][Top(t).1])
    ensures Ix(t, g.succ[Top(t).0][Top(t).1]) >= 0 && Top(t).0 < |t.low|
    ensures Inv(g, LookBack(t, g.succ[Top(t).0][Top(t).1]))
  {
    var v, w := Top(t).0, g.succ[Top(t).0][Top(t).1];
    assert t.low[v] <= Ix(t, v) && LowWitness(g, t, v) && Ix(t, w) >= 0;
    ReachRefl(g, v);
    assert g.Edge(v, w);
    ReachStep(g, v, v, w);
    hide Inv, Reachable;
    if t.low[v] <= Ix(t, w) {
      var u: nat :| On(t, u) && Ix(t, u) == t.low[v] && Reachable(g, v, u);
      AdvancedKeeps(g, t, t.low[v], u);
    } else {
      AdvancedKeeps(g, t, Ix(t, w), w);
    }
  }

  lemma SkipKeeps(g: Graph, t: Search)
    requires Inv(g, t) && t.dfs != [] && On(t, Top(t).0) && Top(t).1 < |g.succ[Top(t).0]|
    requires !On(t, g.succ[Top(t).0][Top(t).1]) && Ix(t, g.succ[Top(t).0][Top(t).1]) >= 0
    ensures Inv(g, Advanced(t))
  {
    var v := Top(t).0;
    var u := WitnessOf(g, t, v);
    hide *;
    AdvancedKeeps(g, t, t.low[v], u);
    SameLow(t, v);
  }

  lemma SameLow(t: Search, v: nat)
    requires t.dfs != [] && v < |t.low|
    ensures Advanced(t).(low := t.low[v := t.low[v]]) == Advanced(t)
  {
    assert t.low[v := t.low[v]] == t.low;
  }

  lemma WitnessOf(g: Graph, t: Search, v: nat) returns (u: nat)
    requires Inv(g, t) && On(t, v)
    ensures v < |t.low| == g.N() && On(t, u) && Ix(t, u) == t.low[v] <= Ix(t, v) && Reachable(g, v, u)
  {
    StackedBelow(g.N(), t);
    hide Shape, Frames, Descends, Pending, Owned, EdgesSeen, Grouped, Downward, Reachable, Ix, On;
    assert LowWitness(g, t, v);
    u :| On(t, u) && Ix(t, u) == t.low[v] && Reachable(g, v, u);
  }

  lemma DescendKeeps(g: Graph, t: Search)
    requires Inv(g, t) && t.dfs != [] && On(t, Top(t).0) && Top(t).1 < |g.succ[Top(t).0]|
    requires Ix(t, g.succ[Top(t).0][Top(t).1]) < 0
    ensures Inv(g, Descend(t, g.succ[Top(t).0][Top(t).1]))
  {
    InvParts(g, t);
    var w := g.succ[Top(t).0][Top(t).1];
    var t' := Descend(t, w);
    hide *;
    StackedBelow(g.N(), t);
    DescendMembers(g, t, w);
    SameShape(g.N(), t, t');
    DescendFrames(g, t, w);
    DescendOwned(t, w);
    DescendEdges(g, t, w);
    DescendLows(g, t, w);
    InvIntro(g, t');
  }

  lemma DescendLows(g: Graph, t: Search, w: nat)
    requires Lows(g, t) && t.dfs != []
    ensures Lows(g, Descend(t, w))
  {
    var t' := Descend(t, w);
    DescendMembers(g, t, w);
    hide Descend, On, Ix, InDfs, Reachable;
    forall x: nat | On(t', x) && x < |t'.low| ensures t'.low[x] <= Ix(t', x) && LowWitness(g, t', x) {
      assert LowWitness(g, t, x);
      var u: nat :| On(t, u) && Ix(t, u) == t.low[x] && Reachable(g, x, u);
      assert On(t', u) && Ix(t', u) == t'.low[x];
    }
  }

  lemma InvParts(g: Graph, t: Search)
    requires Inv(g, t)
    ensures WellFormed(g) && Shape(g.N(), t) && Frames(g, t) && Descends(g, t) && Lows(g, t) && Pending(t) && Owned(t)
    ensures EdgesSeen(g, t) && Grouped(g, t.comp) && Downward(g, t.comp) && |t.low| == |t.comp| == |g.succ| == g.N()
    ensures forall i: nat, k: nat :: i < |g.succ| && k < |g.succ[i]| ==> g.succ[i][k] < g.N()
  {
  }

  lemma InvIntro(g: Graph, t: Search)
    requires WellFormed(g) && Shape(g.N(), t) && Frames(g, t) && Descends(g, t) && Lows(g, t) && Pending(t) && Owned(t)
    requires EdgesSeen(g, t) && Grouped(g, t.comp) && Downward(g, t.comp)
    ensures Inv(g, t)
  {
  }

  lemma DescendMembers(g: Graph, t: Search, w: nat)
    requires t.dfs != []
    ensures var t' := Descend(t, w);
            && |t'.dfs| == |t.dfs| + 1 && t'.dfs[|t.dfs|] == (w, 0)
            && (forall i: nat :: i < |t.dfs| ==> t'.dfs[i].0 == t.dfs[i].0)
            && (forall i: nat :: i < |t.dfs| - 1 ==> t'.dfs[i] == t.dfs[i]) && t'.dfs[|t.dfs| - 1].1 == Top(t).1 + 1
            && (forall x: nat :: On(t', x) <==> On(t, x)) && (forall x: nat :: Ix(t', x) == Ix(t, x))
            && (forall x: nat :: InDfs(t, x) ==> InDfs(t', x))
            && t'.index == t.index && t'.stack == t.stack && t'.onStack == t.onStack && t'.comp == t.comp
            && t'.ncomp == t.ncomp && t'.idx == t.idx && t'.low == t.low
  {
    var t' := Descend(t, w);
    forall x: nat | InDfs(t, x) ensures InDfs(t', x) {
      var i: nat :| i < |t.dfs| && t.dfs[i].0 == x;
      assert t'.dfs[i].0 == x;
    }
  }

  lemma DescendFrames(g: Graph, t: Search, w: nat)
    requires Frames(g, t) && Descends(g, t) && t.dfs != [] && On(t, Top(t).0) && Top(t).1 < |g.succ[Top(t).0]|
    requires w == g.succ[Top(t).0][Top(t).1] && Ix(t, w) < 0 && w < g.N()
    requires forall x: nat :: On(t, x) ==> 0 <= Ix(t, x)
    ensures Frames(g, Descend(t, w)) && Descends(g, Descend(t, w))
  {
    var t' := Descend(t, w);
    DescendMembers(g, t, w);
    assert !On(t, w);
    hide Descend, Shape, On, Ix, Reachable, InDfs, Lows, Pending, Owned, EdgesSeen, Grouped, Downward;
    forall i: nat | i < |t'.dfs| ensures t'.dfs[i].0 < g.N() && t'.dfs[i].1 <= |g.succ[t'.dfs[i].0]| {
    }
    forall i: nat | i + 1 < |t'.dfs| ensures Inner(g, t', i) {
      if i + 1 < |t.dfs| {
        assert Inner(g, t, i);
      }
    }
  }

  lemma DescendOwned(t: Search, w: nat)
    requires Owned(t) && Pending(t) && t.dfs != [] && !On(t, w)
    ensures Owned(Descend(t, w)) && Pending(Descend(t, w))
  {
    var t' := Descend(t, w);
    DescendMembers(Graph([], []), t, w);
    assert t'.low == t.low;
    hide Descend, On, Ix, InDfs;
    forall i: nat, x: nat | Owns(t', i, x) ensures LowBelow(t', i, x) {
      assert i < |t.dfs|;
      assert Owns(t, i, x);
    }
  }

  lemma DescendEdges(g: Graph, t: Search, w: nat)
    requires EdgesSeen(g, t) && t.dfs != [] && !On(t, w)
    ensures EdgesSeen(g, Descend(t, w))
  {
    var t' := Descend(t, w);
    DescendMembers(g, t, w);
    assert t'.low == t.low;
    hide Descend, On, Ix, InDfs;
    forall x: nat, k: nat | On(t', x) && x < |g.succ| && x < |t'.low| && k < |g.succ[x]| && Explored(t', x, k)
      ensures EdgeSeen(g, t', x, k)
    {
      forall i: nat | i < |t.dfs| && t.dfs[i].0 == x
        ensures if i == |t.dfs| - 1 then k < t.dfs[i].1 else k + 1 < t.dfs[i].1
      {
        assert t'.dfs[i].0 == x;
      }
      assert Explored(t, x, k);
      assert EdgeSeen(g, t, x, k);
    }
  }

  // ------------------------------------------------------------ leaving a node

  /** The top node is open exactly once. */
  lemma TopOnce(g: Graph, t: Search, i: nat)
    requires Frames(g, t) && i + 1 < |t.dfs|
    ensures On(t, t.dfs[i].0) && t.dfs[i].0 != Top(t).0
    ensures On(t, Top(t).0) ==> Ix(t, t.dfs[i].0) < Ix(t, Top(t).0)
  {
    assert Inner(g, t, i);
    var top := |t.dfs| - 1;
    assert i < top;
    if On(t, t.dfs[top].0) {
      assert Ix(t, t.dfs[i].0) < Ix(t, t.dfs[top].0);
    }
  }

  /** What leaving the top frame does to the frames. */
  lemma LeaveMembers(g: Graph, t: Search, t': Search)
    requires Frames(g, t) && t.dfs != [] && t'.dfs == t.dfs[..|t.dfs| - 1]
    ensures forall x: nat :: InDfs(t', x) <==> InDfs(t, x) && x != Top(t).0
  {
    var v := Top(t).0;
    forall x: nat ensures InDfs(t', x) <==> InDfs(t, x) && x != v {
      if InDfs(t', x) {
        var i: nat :| i < |t'.dfs| && t'.dfs[i].0 == x;
        assert t.dfs[i].0 == x;
        TopOnce(g, t, i);
      }
      if InDfs(t, x) && x != v {
        var i: nat :| i < |t.dfs| && t.dfs[i].0 == x;
        assert t'.dfs[i].0 == x;
      }
    }
  }

  lemma LeaveFrames(g: Graph, t: Search, t': Search, bound: int)
    requires Frames(g, t) && Descends(g, t) && t.dfs != [] && t'.dfs == t.dfs[..|t.dfs| - 1]
    requires forall x: nat :: On(t', x) <==> On(t, x) && Ix(t, x) < bound
    requires forall x: nat :: Ix(t', x) == Ix(t, x)
    requires |t.dfs| > 1 ==> Ix(t, t.dfs[|t.dfs| - 2].0) < bound
    ensures Frames(g, t') && Descends(g, t')
  {
    hide On, Ix, Reachable;
    forall i: nat | i < |t'.dfs| ensures On(t, t.dfs[i].0) && Ix(t, t.dfs[i].0) < bound {
      assert Inner(g, t, i);
      if i < |t.dfs| - 2 {
        assert Inner(g, t, |t.dfs| - 2);
      }
    }
    forall i: nat | i + 1 < |t'.dfs| ensures Inner(g, t', i) {
      assert Inner(g, t, i);
    }
  }

  /** What leaving the top frame does to the low links: only the parent's may fall, to the child's. */
  ghost predicate LowPassed(t: Search, t': Search) {
    && t.dfs != [] && |t'.low| == |t.low| && t'.dfs == t.dfs[..|t.dfs| - 1] && Top(t).0 < |t.low|
    && (|t.dfs| > 1 ==> var p := t.dfs[|t.dfs| - 2].0; p < |t.low| && t'.low[p] == Min(t.low[p], t.low[Top(t).0]))
    && (forall x: nat :: x < |t.low| && (|t.dfs| > 1 ==> x != t.dfs[|t.dfs| - 2].0) ==> t'.low[x] == t.low[x])
  }

  ghost predicate SameMarks(t: Search, t': Search) {
    (forall x: nat :: On(t', x) <==> On(t, x)) && (forall x: nat :: Ix(t', x) == Ix(t, x))
  }

  lemma InnerPending(g: Graph, t: Search, t': Search)
    requires Frames(g, t) && Pending(t) && Lows(g, t) && LowPassed(t, t') && SameMarks(t, t') && On(t, Top(t).0)
    requires t.low[Top(t).0] != Ix(t, Top(t).0)
    ensures Pending(t')
  {
    var v := Top(t).0;
    LeaveMembers(g, t, t');
    if |t.dfs| > 1 {
      TopOnce(g, t, |t.dfs| - 2);
      assert t'.dfs[|t.dfs| - 2].0 == t.dfs[|t.dfs| - 2].0;
      assert InDfs(t', t.dfs[|t.dfs| - 2].0);
    }
    hide Frames, On, Ix, InDfs, LowWitness;
    forall w: nat | On(t', w) && w < |t'.low| && !InDfs(t', w) ensures t'.low[w] < Ix(t', w) {
      assert On(t, w);
    }
  }

  lemma InnerLows(g: Graph, t: Search, t': Search)
    requires Inv(g, t) && t.dfs != [] && LowPassed(t, t') && SameMarks(t, t') && On(t, Top(t).0)
    ensures Lows(g, t')
  {
    hide *;
    InvParts(g, t);
    var v := Top(t).0;
    var uv := WitnessOf(g, t, v);
    if |t.dfs| > 1 {
      var p := t.dfs[|t.dfs| - 2].0;
      TopOnce(g, t, |t.dfs| - 2);
      var up := WitnessOf(g, t, p);
      ParentReaches(g, t, uv);
      LowAt(t, t');
      LoweredLows(g, t, t', p, if t.low[p] <= t.low[v] then up else uv);
    } else {
      LowAt(t, t');
      LoweredLows(g, t, t', v, uv);
    }
  }

  lemma LowAt(t: Search, t': Search)
    requires t.dfs != [] && LowPassed(t, t') && SameMarks(t, t')
    ensures forall w: nat :: (On(t', w) <==> On(t, w)) && Ix(t', w) == Ix(t, w)
    ensures |t'.low| == |t.low| && Top(t).0 < |t.low|
    ensures |t.dfs| > 1 ==> t.dfs[|t.dfs| - 2].0 < |t.low|
    ensures var p := if |t.dfs| > 1 then t.dfs[|t.dfs| - 2].0 else Top(t).0;
            && t'.low == t.low[p := t'.low[p]]
            && t'.low[p] == if t.low[p] <= t.low[Top(t).0] then t.low[p] else t.low[Top(t).0]
  {
    hide On, Ix;
  }

  lemma ParentReaches(g: Graph, t: Search, u: nat)
    requires Frames(g, t) && |t.dfs| > 1 && Reachable(g, Top(t).0, u)
    ensures Reachable(g, t.dfs[|t.dfs| - 2].0, u)
  {
    var p := t.dfs[|t.dfs| - 2];
    assert Inner(g, t, |t.dfs| - 2);
    ReachRefl(g, p.0);
    assert g.Edge(p.0, Top(t).0);
    ReachStep(g, p.0, p.0, Top(t).0);
    ReachTrans(g, p.0, Top(t).0, u);
  }

  lemma InnerOwned(g: Graph, t: Search, t': Search)
    requires Shape(g.N(), t) && Frames(g, t) && Owned(t) && LowPassed(t, t') && SameMarks(t, t') && On(t, Top(t).0)
    ensures Owned(t')
  {
    var v, top := Top(t).0, |t.dfs| - 1;
    LeaveMembers(g, t, t');
    StackedBelow(g.N(), t);
    forall i: nat, w: nat | Owns(t', i, w) ensures LowBelow(t', i, w) {
      TopOnce(g, t, i);
      assert t'.dfs[i] == t.dfs[i] && i < top;
      assert InDfs(t', t.dfs[i].0);
      assert On(t', w) && Ix(t', t.dfs[i].0) < Ix(t', w);
      if i + 1 < top {
        InnerOwnedLow(g, t, t', i, w);
      } else {
        InnerOwnedParent(g, t, t', w);
      }
    }
  }

  lemma InnerOwnedLow(g: Graph, t: Search, t': Search, i: nat, w: nat)
    requires Frames(g, t) && Owned(t) && LowPassed(t, t') && SameMarks(t, t') && On(t, Top(t).0)
    requires Owns(t', i, w) && i + 2 < |t.dfs| && forall x: nat :: InDfs(t', x) <==> InDfs(t, x) && x != Top(t).0
    ensures LowBelow(t', i, w)
  {
    var p := |t.dfs| - 2;
    TopOnce(g, t, i + 1);
    TopOnce(g, t, p);
    assert t'.dfs[i] == t.dfs[i] && t'.dfs[i + 1] == t.dfs[i + 1] && t'.dfs[p] == t.dfs[p];
    assert InDfs(t', t'.dfs[p].0);
    assert Ix(t, t.dfs[i].0) < Ix(t, t.dfs[p].0);
    hide Frames, On, Ix, InDfs;
    assert w != Top(t).0 && w != t.dfs[p].0;
    assert Owns(t, i, w);
    assert LowBelow(t, i, w);
  }

  lemma InnerOwnedParent(g: Graph, t: Search, t': Search, w: nat)
    requires Shape(g.N(), t) && Frames(g, t) && Owned(t) && LowPassed(t, t') && SameMarks(t, t') && On(t, Top(t).0)
    requires |t.dfs| > 1 && Owns(t', |t.dfs| - 2, w) && forall x: nat :: InDfs(t', x) <==> InDfs(t, x) && x != Top(t).0
    ensures LowBelow(t', |t.dfs| - 2, w)
  {
    var v, top, p := Top(t).0, |t.dfs| - 1, |t.dfs| - 2;
    TopOnce(g, t, p);
    StackedBelow(g.N(), t);
    assert t'.dfs[p] == t.dfs[p];
    assert InDfs(t', t'.dfs[p].0);
    assert On(t, w) && w != t.dfs[p].0;
    if w != v && Ix(t, w) == Ix(t, v) {
      StackUnique(g.N(), t, w, v);
    }
    hide Frames, Shape, On, Ix, InDfs;
    if w != v {
      if Ix(t, w) < Ix(t, v) {
        assert Owns(t, p, w);
        assert LowBelow(t, p, w);
      } else {
        assert Owns(t, top, w);
        assert LowBelow(t, top, w);
      }
    }
  }

  lemma InnerEdges(g: Graph, t: Search, t': Search)
    requires t.dfs != [] && Shape(g.N(), t) && Frames(g, t) && EdgesSeen(g, t) && Lows(g, t) && LowPassed(t, t')
    requires SameMarks(t, t')
    requires On(t, Top(t).0) && Top(t).1 == |g.succ[Top(t).0]|
    ensures EdgesSeen(g, t')
  {
    hide Frames, Shape, Lows, LowPassed, SameMarks, On, Ix, Explored, EdgeSeen;
    StackedBelow(g.N(), t);
    LowAt(t, t');
    forall x: nat, k: nat | On(t', x) && x < |g.succ| && x < |t'.low| && k < |g.succ[x]| && Explored(t', x, k)
      ensures EdgeSeen(g, t', x, k)
    {
      InnerEdge(g, t, t', x, k);
    }
  }

  lemma InnerEdge(g: Graph, t: Search, t': Search, x: nat, k: nat)
    requires t.dfs != [] && Shape(g.N(), t) && Frames(g, t) && EdgesSeen(g, t) && Lows(g, t) && LowPassed(t, t')
    requires SameMarks(t, t')
    requires On(t, Top(t).0) && Top(t).1 == |g.succ[Top(t).0]|
    requires On(t', x) && x < |g.succ| && x < |t'.low| && k < |g.succ[x]| && Explored(t', x, k)
    ensures EdgeSeen(g, t', x, k)
  {
    hide *;
    var top := |t.dfs| - 1;
    LowAt(t, t');
    LowBounded(g, t, Top(t).0);
    StackedBelow(g.N(), t);
    if top > 0 && x == t.dfs[top - 1].0 && k + 1 == t.dfs[top - 1].1 {
      ParentEdge(g, t, t');
    } else {
      PassedFrames(t, t');
      LeaveExplored(g, t, t', x, k);
      SeenBefore(g, t, x, k);
      EdgeSeenLower(g, t, t', x, k);
    }
  }

  lemma LowBounded(g: Graph, t: Search, x: nat)
    requires Shape(g.N(), t) && Lows(g, t) && On(t, x)
    ensures x < |t.low| && t.low[x] <= Ix(t, x)
  {
    StackedBelow(g.N(), t);
    hide Shape, On, Ix, LowWitness;
  }

  lemma PassedFrames(t: Search, t': Search)
    requires t.dfs != [] && LowPassed(t, t')
    ensures t'.dfs == t.dfs[..|t.dfs| - 1]
  {
  }

  lemma SeenBefore(g: Graph, t: Search, x: nat, k: nat)
    requires EdgesSeen(g, t) && On(t, x) && x < |g.succ| && x < |t.low| && k < |g.succ[x]| && Explored(t, x, k)
    ensures EdgeSeen(g, t, x, k)
  {
  }

  lemma EdgeSeenLower(g: Graph, t: Search, t': Search, x: nat, k: nat)
    requires x < |g.succ| && k < |g.succ[x]| && x < |t.low| && x < |t'.low| && t'.low[x] <= t.low[x]
    requires EdgeSeen(g, t, x, k) && forall w: nat :: (On(t', w) <==> On(t, w)) && Ix(t', w) == Ix(t, w)
    ensures EdgeSeen(g, t', x, k)
  {
    hide On, Ix;
  }

  /** The edge that led to the node just left. */
  lemma ParentEdge(g: Graph, t: Search, t': Search)
    requires Frames(g, t) && |t.dfs| > 1 && LowPassed(t, t') && SameMarks(t, t') && On(t, Top(t).0)
    requires t.dfs[|t.dfs| - 2].0 < |t'.low| && Top(t).0 < |t.low| && t.low[Top(t).0] <= Ix(t, Top(t).0)
    requires t.dfs[|t.dfs| - 2].0 < |g.succ| && 0 < t.dfs[|t.dfs| - 2].1 <= |g.succ[t.dfs[|t.dfs| - 2].0]|
    ensures EdgeSeen(g, t', t.dfs[|t.dfs| - 2].0, t.dfs[|t.dfs| - 2].1 - 1)
  {
    assert Inner(g, t, |t.dfs| - 2);
    LowAt(t, t');
    hide Frames, LowPassed, SameMarks, On;
  }

  lemma LeaveExplored(g: Graph, t: Search, t': Search, x: nat, k: nat)
    requires Frames(g, t) && t.dfs != [] && t'.dfs == t.dfs[..|t.dfs| - 1] && Top(t).1 == |g.succ[Top(t).0]|
    requires x < |g.succ| && k < |g.succ[x]| && Explored(t', x, k)
    requires !(|t.dfs| > 1 && x == t.dfs[|t.dfs| - 2].0 && k + 1 == t.dfs[|t.dfs| - 2].1)
    ensures Explored(t, x, k)
  {
    hide Frames;
    forall i: nat | i < |t.dfs| && t.dfs[i].0 == x
      ensures if i == |t.dfs| - 1 then k < t.dfs[i].1 else k + 1 < t.dfs[i].1
    {
      if i < |t.dfs| - 1 {
        assert t'.dfs[i] == t.dfs[i];
      }
    }
  }

  /** Leaving a node that reaches below itself keeps it on the stack. */
  lemma LeaveInnerKeeps(g: Graph, t: Search)
    requires Inv(g, t) && t.dfs != [] && On(t, Top(t).0) && Top(t).1 == |g.succ[Top(t).0]|
    requires Top(t).0 < |t.low| && t.low[Top(t).0] != Ix(t, Top(t).0)
    requires |t.dfs| > 1 ==> t.dfs[|t.dfs| - 2].0 < |t.low|
    ensures Inv(g, Leave(t))
  {
    hide *;
    var t' := Leave(t);
    LeaveBasics(t);
    InvParts(g, t);
    StackedBelow(g.N(), t);
    SameShape(g.N(), t, t');
    InnerFramesKept(g, t, t');
    InnerPending(g, t, t');
    InnerLows(g, t, t');
    InnerOwned(g, t, t');
    InnerEdges(g, t, t');
    InvIntro(g, t');
  }

  lemma LeaveBasics(t: Search)
    requires t.dfs != [] && Top(t).0 < |t.low| && (|t.dfs| > 1 ==> t.dfs[|t.dfs| - 2].0 < |t.low|)
    ensures var t' := Leave(t);
            && LowPassed(t, t') && SameMarks(t, t') && t'.index == t.index && t'.stack == t.stack
            && t'.onStack == t.onStack && t'.comp == t.comp && t'.ncomp == t.ncomp && t'.idx == t.idx
            && |t'.low| == |t.low|
  {
  }

  lemma InnerFramesKept(g: Graph, t: Search, t': Search)
    requires Shape(g.N(), t) && Frames(g, t) && Descends(g, t) && LowPassed(t, t') && SameMarks(t, t')
    ensures Frames(g, t') && Descends(g, t')
  {
    StackedBelow(g.N(), t);
    if |t.dfs| > 1 {
      TopOnce(g, t, |t.dfs| - 2);
    }
    LeaveFrames(g, t, t', t.idx);
  }

  // ------------------------------------------------------------ closing a component

  /** The component of the top node leaves the stack, and only the frame list remains to be popped. */
  ghost predicate Closes(n: nat, t: Search, t': Search) {
    && t.dfs != [] && t'.dfs == t.dfs && t'.index == t.index && t'.low == t.low && t'.idx == t.idx
    && t'.ncomp == t.ncomp + 1 && Shape(n, t') && |t.comp| == |t'.comp| == n
    && (forall x: nat :: On(t', x) <==> On(t, x) && Ix(t, x) < Ix(t, Top(t).0))
    && (forall x: nat :: x < n ==> t'.comp[x] == if Member(t, x) then Some(t.ncomp) else t.comp[x])
  }

  /** On the stack, at or above the top frame's node. */
  ghost predicate Member(t: Search, x: nat)
    requires t.dfs != []
  {
    On(t, x) && Ix(t, Top(t).0) <= Ix(t, x)
  }

  /** With nothing below it in reach, the top node is reached by all the nodes stacked above it. */
  lemma {:induction false} MemberReaches(g: Graph, t: Search, w: nat)
    requires Inv(g, t) && t.dfs != [] && On(t, Top(t).0) && Top(t).0 < |t.low| && t.low[Top(t).0] == Ix(t, Top(t).0)
    requires Member(t, w)
    ensures Reachable(g, w, Top(t).0)
    decreases Ix(t, w)
  {
    hide *;
    InvParts(g, t);
    var v := Top(t).0;
    MemberFacts(g, t, w);
    if w == v {
      ReachRefl(g, v);
    } else {
      var u := WitnessOf(g, t, w);
      MemberIntro(t, u);
      MemberReaches(g, t, u);
      ReachTrans(g, w, u, v);
    }
  }

  lemma MemberIntro(t: Search, u: nat)
    requires t.dfs != [] && On(t, u) && Ix(t, Top(t).0) <= Ix(t, u)
    ensures Member(t, u)
  {
  }

  /** A finished node above the top node has its low link between the two. */
  lemma MemberFacts(g: Graph, t: Search, w: nat)
    requires WellFormed(g) && Shape(g.N(), t) && Frames(g, t) && Pending(t) && Owned(t) && t.dfs != [] && Member(t, w)
    requires On(t, Top(t).0) && Top(t).0 < |t.low| && t.low[Top(t).0] == Ix(t, Top(t).0)
    ensures w < |t.low| == g.N() && On(t, w) && 0 <= Ix(t, w)
    ensures w != Top(t).0 ==> !InDfs(t, w) && Ix(t, Top(t).0) <= t.low[w] < Ix(t, w)
  {
    var v, top := Top(t).0, |t.dfs| - 1;
    StackedBelow(g.N(), t);
    if w != v {
      if Ix(t, w) == Ix(t, v) {
        StackUnique(g.N(), t, w, v);
      }
      assert t.dfs[top].0 == v;
      NotOpen(g, t, w);
      hide Frames, Shape, On, Ix, InDfs;
      assert Owns(t, top, w);
      assert LowBelow(t, top, w);
    }
  }

  lemma NotOpen(g: Graph, t: Search, w: nat)
    requires Frames(g, t) && t.dfs != [] && On(t, Top(t).0) && Ix(t, Top(t).0) < Ix(t, w)
    ensures !InDfs(t, w)
  {
    if InDfs(t, w) {
      var i: nat :| i < |t.dfs| && t.dfs[i].0 == w;
      if i + 1 < |t.dfs| {
        TopOnce(g, t, i);
      }
    }
  }

  lemma RootGrouped(g: Graph, t: Search, t': Search)
    requires Inv(g, t) && t.dfs != [] && On(t, Top(t).0) && Top(t).0 < |t.low| && t.low[Top(t).0] == Ix(t, Top(t).0)
    requires Closes(g.N(), t, t')
    ensures Grouped(g, t'.comp)
  {
    hide *;
    InvParts(g, t);
    var v := Top(t).0;
    forall x: nat | Member(t, x) ensures Reachable(g, x, v) && Reachable(g, v, x) {
      MemberReaches(g, t, x);
      TopReaches(g, t, x);
    }
    forall x: nat, y: nat | Member(t, x) && Member(t, y) ensures Reachable(g, x, y) {
      ReachTrans(g, x, v, y);
    }
    GroupedIntro(g, t, t');
  }

  lemma TopReaches(g: Graph, t: Search, x: nat)
    requires Descends(g, t) && t.dfs != [] && On(t, Top(t).0) && Member(t, x)
    ensures Reachable(g, Top(t).0, x)
  {
    assert t.dfs[|t.dfs| - 1].0 == Top(t).0;
    hide On, Ix, Reachable;
  }

  lemma GroupedIntro(g: Graph, t: Search, t': Search)
    requires Closes(g.N(), t, t') && Grouped(g, t.comp) && Shape(g.N(), t)
    requires forall x: nat, y: nat :: Member(t, x) && Member(t, y) ==> Reachable(g, x, y)
    ensures Grouped(g, t'.comp)
  {
    assert forall x: nat :: x < g.N() && t.comp[x].Some? ==> t.comp[x].value < t.ncomp;
    hide Shape, Reachable, Member, On, Ix;
  }

  lemma RootDownward(g: Graph, t: Search, t': Search)
    requires Inv(g, t) && t.dfs != [] && On(t, Top(t).0) && Top(t).0 < |t.low| && t.low[Top(t).0] == Ix(t, Top(t).0)
    requires Closes(g.N(), t, t') && Top(t).1 == |g.succ[Top(t).0]|
    ensures Downward(g, t'.comp)
  {
    hide *;
    InvParts(g, t);
    ClosesSizes(g.N(), t, t');
    forall w: nat, k: nat | w < g.N() && t'.comp[w].Some? && k < |g.succ[w]|
      ensures g.succ[w][k] < g.N() && t'.comp[g.succ[w][k]].Some? && t'.comp[g.succ[w][k]].value <= t'.comp[w].value
    {
      if Member(t, w) {
        MemberFacts(g, t, w);
        MemberExplored(g, t, w, k);
        SeenBefore(g, t, w, k);
        MemberEdge(g, t, t', w, k);
      } else {
        OldEdge(g, t, t', w, k);
      }
    }
    DownwardIntro(g, t'.comp);
  }

  lemma DownwardIntro(g: Graph, comp: seq<Option<nat>>)
    requires forall w: nat, k: nat :: w < |comp| && w < |g.succ| && comp[w].Some? && k < |g.succ[w]| ==>
               g.succ[w][k] < |comp| && comp[g.succ[w][k]].Some? && comp[g.succ[w][k]].value <= comp[w].value
    ensures Downward(g, comp)
  {
  }

  lemma ClosesSizes(n: nat, t: Search, t': Search)
    requires Closes(n, t, t')
    ensures |t.comp| == |t'.comp| == n
  {
  }

  lemma MemberExplored(g: Graph, t: Search, w: nat, k: nat)
    requires Frames(g, t) && t.dfs != [] && w < |g.succ| && k < |g.succ[w]|
    requires if w == Top(t).0 then Top(t).1 == |g.succ[w]| else !InDfs(t, w)
    ensures Explored(t, w, k)
  {
    if w == Top(t).0 {
      forall i: nat | i < |t.dfs| && t.dfs[i].0 == w
        ensures if i == |t.dfs| - 1 then k < t.dfs[i].1 else k + 1 < t.dfs[i].1
      {
        if i + 1 < |t.dfs| {
          TopOnce(g, t, i);
        }
      }
    }
  }

  lemma MemberEdge(g: Graph, t: Search, t': Search, w: nat, k: nat)
    requires Shape(g.N(), t) && WellFormed(g) && Closes(g.N(), t, t') && Member(t, w)
    requires w < |t.low| == g.N() && k < |g.succ[w]| && EdgeSeen(g, t, w, k) && Top(t).0 < |t.low|
    requires if w == Top(t).0 then t.low[w] == Ix(t, w) else Ix(t, Top(t).0) <= t.low[w]
    ensures var x := g.succ[w][k];
            x < g.N() && t'.comp[x].Some? && t'.comp[w].Some? && t'.comp[x].value <= t'.comp[w].value
  {
    var x := g.succ[w][k];
    assert x < g.N() && (On(t, x) || t.comp[x].Some?);
    assert t.comp[x].Some? ==> t.comp[x].value < t.ncomp;
    hide Shape, On, Ix;
  }

  lemma OldEdge(g: Graph, t: Search, t': Search, w: nat, k: nat)
    requires Shape(g.N(), t) && Downward(g, t.comp) && Closes(g.N(), t, t') && w < g.N() && k < |g.succ[w]|
    requires !Member(t, w) && t'.comp[w].Some?
    ensures var x := g.succ[w][k];
            x < g.N() && t'.comp[x].Some? && t'.comp[x].value <= t'.comp[w].value
  {
    var x := g.succ[w][k];
    assert x < g.N() && t.comp[x].Some? && !On(t, x);
    hide Shape, On, Ix;
    assert !Member(t, x);
  }

  /** The state after closing the component and popping the frame. */
  ghost predicate RootLeft(g: Graph, t: Search, t': Search) {
    && t.dfs != [] && t'.dfs == t.dfs[..|t.dfs| - 1] && t'.low == t.low && On(t, Top(t).0)
    && (forall x: nat :: On(t', x) <==> On(t, x) && Ix(t, x) < Ix(t, Top(t).0))
    && (forall x: nat :: Ix(t', x) == Ix(t, x))
  }

  lemma RootLows(g: Graph, t: Search, t': Search)
    requires Lows(g, t) && RootLeft(g, t, t')
    ensures Lows(g, t')
  {
    hide On, Ix, Reachable;
    forall w: nat | On(t', w) && w < |t'.low| ensures t'.low[w] <= Ix(t', w) && LowWitness(g, t', w) {
      assert On(t, w) && LowWitness(g, t, w);
      var u: nat :| On(t, u) && Ix(t, u) == t.low[w] && Reachable(g, w, u);
      assert On(t', u) && Ix(t', u) == t'.low[w];
    }
  }

  lemma RootOwned(g: Graph, t: Search, t': Search)
    requires Frames(g, t) && Pending(t) && Owned(t) && RootLeft(g, t, t')
    ensures Pending(t') && Owned(t')
  {
    LeaveMembers(g, t, t');
    hide On, Ix, InDfs, Frames;
    forall i: nat, w: nat | Owns(t', i, w) ensures LowBelow(t', i, w) {
      assert t'.dfs[i] == t.dfs[i];
      if i + 1 < |t'.dfs| {
        assert t'.dfs[i + 1] == t.dfs[i + 1];
        InnerOn(g, t, t', i + 1);
      }
      assert Owns(t, i, w);
      assert LowBelow(t, i, w);
    }
  }

  lemma InnerOn(g: Graph, t: Search, t': Search, i: nat)
    requires Frames(g, t) && RootLeft(g, t, t') && i + 1 < |t.dfs|
    ensures On(t', t.dfs[i].0)
  {
    TopOnce(g, t, i);
    hide On, Ix, Frames;
  }

  lemma RootEdges(g: Graph, t: Search, t': Search)
    requires Frames(g, t) && EdgesSeen(g, t) && RootLeft(g, t, t') && Top(t).1 == |g.succ[Top(t).0]|
    requires forall x: nat :: On(t, x) ==> 0 <= Ix(t, x)
    ensures EdgesSeen(g, t')
  {
    forall x: nat, k: nat | On(t', x) && x < |g.succ| && x < |t'.low| && k < |g.succ[x]| && Explored(t', x, k)
      ensures EdgeSeen(g, t', x, k)
    {
      hide Frames, On, Ix, Explored;
      if |t.dfs| > 1 && x == t.dfs[|t.dfs| - 2].0 && k + 1 == t.dfs[|t.dfs| - 2].1 {
        RootParentEdge(g, t, t');
      } else {
        LeaveExplored(g, t, t', x, k);
        assert EdgeSeen(g, t, x, k);
      }
    }
  }

  lemma RootParentEdge(g: Graph, t: Search, t': Search)
    requires Frames(g, t) && RootLeft(g, t, t') && |t.dfs| > 1 && 0 <= Ix(t, Top(t).0)
    requires t.dfs[|t.dfs| - 2].0 < |t'.low|
    requires t.dfs[|t.dfs| - 2].0 < |g.succ| && 0 < t.dfs[|t.dfs| - 2].1 <= |g.succ[t.dfs[|t.dfs| - 2].0]|
    ensures EdgeSeen(g, t', t.dfs[|t.dfs| - 2].0, t.dfs[|t.dfs| - 2].1 - 1)
  {
    assert Inner(g, t, |t.dfs| - 2);
    hide Frames, On, Ix;
  }

  lemma RootLowKept(g: Graph, t: Search, t2: Search)
    requires Inv(g, t) && t.dfs != [] && On(t, Top(t).0) && Top(t).0 < |t.low| && t.low[Top(t).0] == Ix(t, Top(t).0)
    requires Closes(g.N(), t, t2)
    ensures |t2.dfs| > 1 ==> t2.dfs[|t2.dfs| - 2].0 < |t2.low|
    ensures t2.dfs != [] && Top(t2).0 < |t2.low| && RootLeft(g, t, Leave(t2)) && Shape(g.N(), Leave(t2))
    ensures Leave(t2).comp == t2.comp
  {
    hide *;
    InvParts(g, t);
    ClosesFacts(g.N(), t, t2);
    if |t.dfs| > 1 {
      TopOnce(g, t, |t.dfs| - 2);
      LowBounded(g, t, t.dfs[|t.dfs| - 2].0);
    }
    LeaveBasics(t2);
    LowAt(t2, Leave(t2));
    LowUnchanged(t, t2, Leave(t2));
    RootLeftIntro(g, t, t2, Leave(t2));
    SameShape(g.N(), t2, Leave(t2));
  }

  lemma ClosesFacts(n: nat, t: Search, t2: Search)
    requires Closes(n, t, t2)
    ensures t2.dfs == t.dfs != [] && t2.low == t.low && t2.index == t.index && Shape(n, t2) && Top(t2) == Top(t)
    ensures forall x: nat :: On(t2, x) <==> On(t, x) && Ix(t, x) < Ix(t, Top(t).0)
  {
  }

  lemma LowUnchanged(t: Search, t2: Search, t3: Search)
    requires t2.dfs == t.dfs != [] && t2.low == t.low && |t3.low| == |t2.low| && Top(t).0 < |t.low|
    requires var p := if |t2.dfs| > 1 then t2.dfs[|t2.dfs| - 2].0 else Top(t2).0;
             && p < |t2.low| && t3.low == t2.low[p := t3.low[p]]
             && t3.low[p] == if t2.low[p] <= t2.low[Top(t2).0] then t2.low[p] else t2.low[Top(t2).0]
    requires |t.dfs| > 1 ==> t.dfs[|t.dfs| - 2].0 < |t.low| && t.low[t.dfs[|t.dfs| - 2].0] <= t.low[Top(t).0]
    ensures t3.low == t.low
  {
  }

  lemma RootLeftIntro(g: Graph, t: Search, t2: Search, t3: Search)
    requires t2.dfs == t.dfs != [] && t3.low == t.low && On(t, Top(t).0) && t2.index == t.index
    requires LowPassed(t2, t3) && SameMarks(t2, t3)
    requires forall x: nat :: On(t2, x) <==> On(t, x) && Ix(t, x) < Ix(t, Top(t).0)
    ensures RootLeft(g, t, t3)
  {
    assert forall x: nat :: Ix(t2, x) == Ix(t, x);
    hide On, Ix;
  }

  /** Closing a component and leaving its root keeps the invariant. */
  lemma LeaveRootKeeps(g: Graph, t: Search, t2: Search)
    requires Inv(g, t) && t.dfs != [] && On(t, Top(t).0) && Top(t).0 < |t.low| && t.low[Top(t).0] == Ix(t, Top(t).0)
    requires Closes(g.N(), t, t2) && Top(t).1 == |g.succ[Top(t).0]|
    ensures |t2.dfs| > 1 ==> t2.dfs[|t2.dfs| - 2].0 < |t2.low|
    ensures t2.dfs != [] && Top(t2).0 < |t2.low| && Inv(g, Leave(t2))
  {
    hide *;
    InvParts(g, t);
    RootLowKept(g, t, t2);
    var t3 := Leave(t2);
    StackedBelow(g.N(), t);
    RootFrames(g, t, t3);
    RootLows(g, t, t3);
    RootOwned(g, t, t3);
    RootEdges(g, t, t3);
    RootGrouped(g, t, t2);
    RootDownward(g, t, t2);
    InvIntro(g, t3);
  }

  lemma RootFrames(g: Graph, t: Search, t': Search)
    requires Frames(g, t) && Descends(g, t) && RootLeft(g, t, t')
    ensures Frames(g, t') && Descends(g, t')
  {
    if |t.dfs| > 1 {
      TopOnce(g, t, |t.dfs| - 2);
    }
    hide Frames, Descends, On, Ix;
    LeaveFrames(g, t, t', Ix(t, Top(t).0));
  }

  lemma PopStart(n: nat, t: Search, v: nat) returns (pos: nat)
    requires Shape(n, t) && On(t, v)
    ensures pos < |t.stack| && t.stack[pos] == v && Popping(n, t, t, pos)
  {
    pos :| pos < |t.stack| && t.stack[pos] == v;
    hide Ix;
    assert t.stack[|t.stack|..] == [];
  }

  lemma PoppingSize(n: nat, t: Search, t': Search, pos: nat)
    requires Popping(n, t, t', pos)
    ensures |t'.onStack| == |t'.comp| == n && pos < |t'.stack| <= |t.stack| && t'.stack[pos] == t.stack[pos]
  {
  }

  /** Pop the stack down to and including `v`, naming the nodes after a new component. */
  method PopComponent(n: nat, t: Search, v: nat) returns (t': Search)
    requires Shape(n, t) && t.dfs != [] && Top(t).0 == v && On(t, v)
    ensures Closes(n, t, t')
  {
    hide Shape, Closes, Popping, On;
    ghost var pos := PopStart(n, t, v);
    t' := t;
    PoppingSize(n, t, t', pos);
    while t'.stack != [] && t'.stack[|t'.stack| - 1] != v
      invariant Popping(n, t, t', pos) && |t'.onStack| == |t'.comp| == n
      invariant pos < |t'.stack| && t'.stack[pos] == v
      decreases |t'.stack|
    {
      PopStep(n, t, t', pos);
      t' := Pop(t', t'.stack[|t'.stack| - 1]);
      PoppingSize(n, t, t', pos);
    }
    PopLast(n, t, t', pos);
    t' := Pop(t', v);
    t' := t'.(ncomp := t'.ncomp + 1);
  }

  function Pop(t: Search, w: nat): Search
    requires t.stack != [] && w < |t.onStack| == |t.comp|
  {
    t.(stack := t.stack[..|t.stack| - 1], onStack := t.onStack[w := false], comp := t.comp[w := Some(t.ncomp)])
  }

  /** Part of the way down to position `pos`. */
  ghost predicate Popping(n: nat, t: Search, t': Search, pos: nat) {
    && pos < |t'.stack| <= |t.stack| && t'.stack == t.stack[..|t'.stack|]
    && Sized(n, t') && t'.dfs == t.dfs && t'.index == t.index && t'.low == t.low && t'.idx == t.idx &&
        t'.ncomp == t.ncomp
    && |t.comp| == |t.onStack| == n
    && (forall x: nat :: x < n ==> t'.onStack[x] == (t.onStack[x] && x !in t.stack[|t'.stack|..]))
    && (forall x: nat :: x < n ==> t'.comp[x] == if x in t.stack[|t'.stack|..] then Some(t.ncomp) else t.comp[x])
  }

  lemma PopStep(n: nat, t: Search, t': Search, pos: nat)
    requires Shape(n, t) && Popping(n, t, t', pos) && pos < |t'.stack| - 1
    ensures t'.stack[|t'.stack| - 1] < n && Popping(n, t, Pop(t', t'.stack[|t'.stack| - 1]), pos)
  {
    var k := |t'.stack| - 1;
    assert t.stack[k..] == [t.stack[k]] + t.stack[k + 1..];
    assert t'.stack[..k] == t.stack[..k];
    hide Ix, On;
  }

  lemma PopLast(n: nat, t: Search, t': Search, pos: nat)
    requires Shape(n, t) && Popping(n, t, t', pos) && t.dfs != [] && t.stack[pos] == Top(t).0
    requires t'.stack[|t'.stack| - 1] == Top(t).0
    ensures Top(t).0 < n && var t2 := Pop(t', Top(t).0); Closes(n, t, t2.(ncomp := t2.ncomp + 1))
  {
    var v, k := Top(t).0, |t'.stack| - 1;
    assert t.stack[k] == v && k == pos;
    assert t.stack[pos..] == [v] + t.stack[pos + 1..];
    var t2 := Pop(t', v);
    var t3 := t2.(ncomp := t2.ncomp + 1);
    assert t3.stack == t.stack[..pos];
    StackSplit(n, t, pos);
    assert forall x: nat :: On(t3, x) <==> x in t.stack[..pos];
    hide Shape, Ix, On, Member, Sized;
    PopShape(n, t, t3);
  }

  /** The ascending stack splits at a node into what is below it and its component. */
  lemma StackSplit(n: nat, t: Search, pos: nat)
    requires Shape(n, t) && t.dfs != [] && pos < |t.stack| && t.stack[pos] == Top(t).0
    ensures forall x: nat :: x in t.stack[..pos] <==> On(t, x) && Ix(t, x) < Ix(t, Top(t).0)
    ensures forall x: nat :: x in t.stack[pos..] <==> Member(t, x)
  {
    hide Ix;
    forall x: nat | On(t, x)
      ensures x in t.stack[..pos] <==> Ix(t, x) < Ix(t, Top(t).0)
      ensures x in t.stack[pos..] <==> Ix(t, Top(t).0) <= Ix(t, x)
    {
      var i: nat :| i < |t.stack| && t.stack[i] == x;
      assert if i < pos then x == t.stack[..pos][i] else x == t.stack[pos..][i - pos];
    }
  }

  lemma PopShape(n: nat, t: Search, t': Search)
    requires Shape(n, t) && t.dfs != [] && Sized(n, t') && t'.index == t.index && t'.idx == t.idx
    requires t'.ncomp == t.ncomp + 1
    requires t'.stack <= t.stack && (forall x: nat :: On(t', x) <==> On(t, x) && Ix(t, x) < Ix(t, Top(t).0))
    requires forall x: nat :: x < n ==> (t'.onStack[x] <==> t.onStack[x] && !Member(t, x))
    requires forall x: nat :: x < n ==> t'.comp[x] == if Member(t, x) then Some(t.ncomp) else t.comp[x]
    ensures Shape(n, t')
  {
    assert forall x: nat :: Ix(t', x) == Ix(t, x);
    hide Ix, On;
  }

  // ------------------------------------------------------------ termination

  ghost function Unseen(index: seq<Option<nat>>): nat {
    if index == [] then 0 else Unseen(index[..|index| - 1]) + if index[|index| - 1].None? then 1 else 0
  }

  lemma {:induction false} UnseenFalls(index: seq<Option<nat>>, v: nat, k: nat)
    requires v < |index| && index[v].None?
    ensures Unseen(index[v := Some(k)]) + 1 == Unseen(index)
  {
    var n := |index| - 1;
    var index' := index[v := Some(k)];
    if v == n {
      assert index'[..n] == index[..n];
    } else {
      assert index'[..n] == index[..n][v := Some(k)];
      UnseenFalls(index[..n], v, k);
    }
  }

  /** Edges still to be followed from a numbered frame. */
  ghost function Remaining(g: Graph, t: Search, i: nat): int
    requires i < |t.dfs|
  {
    var (v, c) := t.dfs[i];
    if Ix(t, v) >= 0 && v < |g.succ| then |g.succ[v]| - c else 0
  }

  ghost function Rest(g: Graph, t: Search, k: nat): int
    requires k <= |t.dfs|
  {
    if k == 0 then 0 else Rest(g, t, k - 1) + Remaining(g, t, k - 1)
  }

  lemma {:induction false} RestSame(g: Graph, t: Search, t': Search, k: nat)
    requires k <= |t.dfs| && k <= |t'.dfs| && t'.index == t.index && t'.dfs[..k] == t.dfs[..k]
    ensures Rest(g, t', k) == Rest(g, t, k)
  {
    if k > 0 {
      assert t'.dfs[..k - 1] == t'.dfs[..k][..k - 1] && t.dfs[..k - 1] == t.dfs[..k][..k - 1];
      assert t'.dfs[k - 1] == t'.dfs[..k][k - 1] == t.dfs[..k][k - 1];
      RestSame(g, t, t', k - 1);
    }
  }

  lemma {:induction false} RestPositive(g: Graph, t: Search, k: nat)
    requires Frames(g, t) && k <= |t.dfs|
    ensures Rest(g, t, k) >= 0
  {
    if k > 0 {
      RestPositive(g, t, k - 1);
    }
  }

  ghost predicate Shrinks(g: Graph, t: Search, t': Search) {
    || Unseen(t'.index) < Unseen(t.index)
    || (t'.index == t.index && Rest(g, t', |t'.dfs|) < Rest(g, t, |t.dfs|))
    || (t'.index == t.index && Rest(g, t', |t'.dfs|) == Rest(g, t, |t.dfs|) && |t'.dfs| < |t.dfs|)
  }

  lemma ShrinksAdvanced(g: Graph, t: Search, t': Search)
    requires t.dfs != [] && 0 <= Ix(t, Top(t).0) && Top(t).0 < |g.succ| && t'.index == t.index
    requires t'.dfs == Advanced(t).dfs
    ensures Shrinks(g, t, t')
  {
    var k := |t.dfs| - 1;
    assert t'.dfs[..k] == t.dfs[..k];
    RestSame(g, t, t', k);
  }

  lemma ShrinksDescend(g: Graph, t: Search, w: nat)
    requires t.dfs != [] && 0 <= Ix(t, Top(t).0) && Top(t).0 < |g.succ| && Ix(t, w) < 0
    ensures Shrinks(g, t, Descend(t, w))
  {
    var k, t' := |t.dfs| - 1, Descend(t, w);
    assert t'.dfs[..k] == t.dfs[..k];
    RestSame(g, t, t', k);
    assert Rest(g, t', k + 2) == Rest(g, t', k + 1) + Remaining(g, t', k + 1);
  }

  lemma ShrinksLeave(g: Graph, t: Search, t': Search)
    requires t.dfs != [] && 0 <= Ix(t, Top(t).0) && Top(t).0 < |g.succ| && Top(t).1 == |g.succ[Top(t).0]|
    requires t'.index == t.index && t'.dfs == t.dfs[..|t.dfs| - 1]
    ensures Shrinks(g, t, t')
  {
    var k := |t.dfs| - 1;
    assert t'.dfs[..k] == t.dfs[..k];
    RestSame(g, t, t', k);
  }

  // ------------------------------------------------------------ the search

  /** The top frame is new exactly when its node has no number. */
  ghost predicate Ready(t: Search) {
    t.dfs != [] ==> (Top(t).1 == 0 <==> Ix(t, Top(t).0) < 0)
  }

  ghost predicate Kept(t: Search, t': Search) {
    forall x: nat :: 0 <= Ix(t, x) ==> 0 <= Ix(t', x)
  }

  lemma ReadyFacts(g: Graph, t: Search)
    requires Inv(g, t) && t.dfs != [] && Ready(t)
    ensures Top(t).0 < g.N() == |t.index| == |t.low| == |t.onStack| == |t.comp| == |g.succ|
    ensures Top(t).1 <= |g.succ[Top(t).0]|
    ensures Top(t).1 > 0 ==> On(t, Top(t).0) && 0 <= Ix(t, Top(t).0)
    ensures Top(t).1 == 0 ==> t.index[Top(t).0].None? && Ix(t, Top(t).0) < 0
    ensures forall k: nat :: k < |g.succ[Top(t).0]| ==> g.succ[Top(t).0][k] < g.N()
  {
    StackedBelow(g.N(), t);
    assert t.dfs[|t.dfs| - 1].0 < g.N();
  }

  /** One turn of the search: open the top node if it is new, then follow one edge or leave it. */
  method Turn(g: Graph, t: Search) returns (t': Search)
    requires Inv(g, t) && t.dfs != [] && Ready(t)
    ensures Inv(g, t') && Ready(t') && Kept(t, t') && 0 <= Ix(t', Top(t).0)
    ensures Shrinks(g, t, t')
  {
    hide *;
    ReadyFacts(g, t);
    var t1 := t;
    if Top(t).1 == 0 {
      OpenKeeps(g, t);
      Opened(t);
      t1 := Open(t1);
    }
    KeptSelf(g, t, t1);
    var (v, ci) := Top(t1);
    if ci < |g.succ[v]| {
      t' := Follow(g, t1);
    } else {
      t' := Finish(g, t1);
    }
    ShrinksTrans(g, t, t1, t');
  }

  /** Follow the next edge of the top node. */
  method Follow(g: Graph, t: Search) returns (t': Search)
    requires Inv(g, t) && t.dfs != [] && On(t, Top(t).0) && Top(t).0 < |g.succ| && Top(t).1 < |g.succ[Top(t).0]|
    ensures Inv(g, t') && Ready(t') && t'.index == t.index && Shrinks(g, t, t')
  {
    hide *;
    InvParts(g, t);
    StackedBelow(g.N(), t);
    var v := Top(t).0;
    var w := g.succ[v][Top(t).1];
    Marks(g, t, w);
    if t.index[w].None? {
      DescendKeeps(g, t);
      ShrinksDescend(g, t, w);
      DescendReady(t, w);
      t' := Descend(t, w);
    } else if t.onStack[w] {
      LookBackKeeps(g, t);
      t' := LookBack(t, w);
      LookBackReady(t, w);
      ShrinksAdvanced(g, t, t');
    } else {
      SkipKeeps(g, t);
      t' := Advanced(t);
      AdvancedReady(t);
      ShrinksAdvanced(g, t, t');
    }
  }

  lemma Marks(g: Graph, t: Search, w: nat)
    requires Shape(g.N(), t) && w < g.N()
    ensures |t.index| == |t.onStack| == g.N()
    ensures t.index[w].None? <==> Ix(t, w) < 0
    ensures t.onStack[w] <==> On(t, w)
  {
    hide On;
  }

  lemma DescendReady(t: Search, w: nat)
    requires t.dfs != [] && Ix(t, w) < 0
    ensures Ready(Descend(t, w)) && Descend(t, w).index == t.index
  {
  }

  lemma LookBackReady(t: Search, w: nat)
    requires t.dfs != [] && Top(t).0 < |t.low| && 0 <= Ix(t, w) && 0 <= Ix(t, Top(t).0)
    ensures Ready(LookBack(t, w)) && LookBack(t, w).index == t.index && LookBack(t, w).dfs == Advanced(t).dfs
  {
  }

  lemma AdvancedReady(t: Search)
    requires t.dfs != [] && 0 <= Ix(t, Top(t).0)
    ensures Ready(Advanced(t)) && Advanced(t).index == t.index
  {
  }

  /** All edges of the top node followed: close its component if it is a root, and leave it. */
  method Finish(g: Graph, t: Search) returns (t': Search)
    requires Inv(g, t) && t.dfs != [] && On(t, Top(t).0) && Top(t).0 < |g.succ| && Top(t).1 == |g.succ[Top(t).0]|
    ensures Inv(g, t') && Ready(t') && t'.index == t.index && Shrinks(g, t, t')
  {
    hide *;
    InvParts(g, t);
    StackedBelow(g.N(), t);
    var v := Top(t).0;
    Marks(g, t, v);
    IxValue(t, v);
    if |t.dfs| > 1 {
      TopOnce(g, t, |t.dfs| - 2);
    }
    if t.low[v] == t.index[v].value {
      var t2 := PopComponent(g.N(), t, v);
      LeaveRootKeeps(g, t, t2);
      t' := Leave(t2);
      ClosesFacts(g.N(), t, t2);
      LeaveReady(g, t, t2);
    } else {
      LeaveInnerKeeps(g, t);
      t' := Leave(t);
      LeaveReady(g, t, t);
    }
    ShrinksLeave(g, t, t');
  }

  lemma IxValue(t: Search, v: nat)
    requires v < |t.index| && t.index[v].Some?
    ensures Ix(t, v) == t.index[v].value
  {
  }

  lemma LeaveReady(g: Graph, t: Search, t2: Search)
    requires Frames(g, t) && Shape(g.N(), t) && t.dfs != [] && t2.dfs == t.dfs && t2.index == t.index
    requires Top(t2).0 < |t2.low| && (|t2.dfs| > 1 ==> t2.dfs[|t2.dfs| - 2].0 < |t2.low|)
    ensures Ready(Leave(t2)) && Leave(t2).index == t.index && Leave(t2).dfs == t.dfs[..|t.dfs| - 1]
  {
    StackedBelow(g.N(), t);
    if |t.dfs| > 1 {
      assert Inner(g, t, |t.dfs| - 2);
    }
    assert forall x: nat :: Ix(Leave(t2), x) == Ix(t, x);
    hide Frames, Shape, On, Ix;
  }

  lemma Opened(t: Search)
    requires t.dfs != [] && Top(t).0 < |t.index| == |t.low| == |t.onStack| && t.index[Top(t).0].None?
    ensures Open(t).dfs == t.dfs && Kept(t, Open(t)) && 0 <= Ix(Open(t), Top(t).0)
    ensures Unseen(Open(t).index) < Unseen(t.index) && Top(Open(t)) == Top(t)
  {
    UnseenFalls(t.index, Top(t).0, t.idx);
  }

  lemma KeptSelf(g: Graph, t: Search, t1: Search)
    requires t1 == t || Kept(t, t1)
    ensures Kept(t, t1)
  {
  }

  lemma ShrinksTrans(g: Graph, t: Search, t1: Search, t': Search)
    requires (t1 == t || Unseen(t1.index) < Unseen(t.index)) && t1.index == t'.index && Shrinks(g, t1, t')
    requires Kept(t, t1)
    requires t.dfs != [] && 0 <= Ix(t1, Top(t).0)
    ensures Shrinks(g, t, t') && Kept(t, t') && 0 <= Ix(t', Top(t).0)
  {
    assert forall x: nat :: Ix(t', x) == Ix(t1, x);
    hide Ix, Rest, Unseen;
  }

  lemma StartInv(g: Graph)
    requires WellFormed(g)
    ensures var n := g.N();
            Inv(g, Search(seq(n, _ => None), seq(n, _ => 0), seq(n, _ => false), [], seq(n, _ => None), 0, 0, []))
  {
    hide Reachable;
  }

  /** With no frame open the stack is empty: a stacked node would reach back below itself. */
  lemma NothingPending(g: Graph, t: Search)
    requires Inv(g, t) && t.dfs == []
    ensures t.stack == []
  {
    InvParts(g, t);
    hide Inv, Shape, Frames, Descends, Lows, Owned, EdgesSeen, Grouped, Downward, Reachable, Ix;
    if t.stack != [] {
      var w := t.stack[0];
      assert On(t, w) && !InDfs(t, w);
      var u := WitnessOf(g, t, w);
      BottomOfStack(g.N(), t, u);
    }
  }

  lemma BottomOfStack(n: nat, t: Search, u: nat)
    requires Shape(n, t) && On(t, u)
    ensures t.stack != [] && Ix(t, t.stack[0]) <= Ix(t, u)
  {
    var i: nat :| i < |t.stack| && t.stack[i] == u;
  }

  lemma PushRoot(g: Graph, t: Search, start: nat)
    requires Inv(g, t) && t.dfs == [] && start < g.N() && Ix(t, start) < 0
    ensures Inv(g, t.(dfs := [(start, 0)])) && Ready(t.(dfs := [(start, 0)]))
  {
    var t' := t.(dfs := [(start, 0)]);
    NothingPending(g, t);
    InvParts(g, t);
    assert t'.stack == [];
    SameShape(g.N(), t, t');
    assert forall x: nat :: Ix(t', x) == Ix(t, x);
    hide Shape, Ix, Reachable, Inv, Grouped, Downward, LowWitness, EdgeSeen, Explored;
    assert Frames(g, t');
    InvIntro(g, t');
  }

  /** A path never climbs to a component closed later. */
  lemma {:induction false} PathDownward(g: Graph, comp: seq<Option<nat>>, p: seq<nat>, u: nat, v: nat)
    requires Downward(g, comp) && |comp| == |g.succ| && PathFromTo(g, p, u, v) && u < |comp| && comp[u].Some?
    ensures v < |comp| && comp[v].Some? && comp[v].value <= comp[u].value
    decreases |p|
  {
    if |p| > 1 {
      var k: nat :| k < |g.succ[u]| && g.succ[u][k] == p[1];
      PathDownward(g, comp, p[1..], p[1], v);
    }
  }

  /** Two nodes have the same component number exactly when each reaches the other. */
  ghost predicate AreComponents(g: Graph, comp: seq<nat>, ncomp: nat) {
    && |comp| == g.N() && (forall u: nat :: u < |comp| ==> comp[u] < ncomp)
    && (forall u: nat, v: nat :: u < |comp| && v < |comp| ==>
          (comp[u] == comp[v] <==> Reachable(g, u, v) && Reachable(g, v, u)))
  }

  lemma AllClosed(g: Graph, t: Search)
    requires Inv(g, t) && t.dfs == [] && forall x: nat :: x < g.N() ==> 0 <= Ix(t, x)
    ensures |t.comp| == g.N() && forall x: nat :: x < g.N() ==> t.comp[x].Some? && t.comp[x].value < t.ncomp
  {
    NothingPending(g, t);
    hide Ix, Reachable;
  }

  lemma ClosedComponents(g: Graph, t: Search, comp: seq<nat>)
    requires Inv(g, t) && |comp| == |t.comp| == g.N()
    requires forall x: nat :: x < g.N() ==> t.comp[x].Some? && t.comp[x].value < t.ncomp && comp[x] == t.comp[x].value
    ensures AreComponents(g, comp, t.ncomp)
  {
    InvParts(g, t);
    hide Inv, Shape, Frames, Descends, Lows, Pending, Owned, EdgesSeen, Ix, Reachable, Downward;
    forall u: nat, v: nat | u < |comp| && v < |comp|
      ensures comp[u] == comp[v] <==> Reachable(g, u, v) && Reachable(g, v, u)
    {
      if Reachable(g, u, v) && Reachable(g, v, u) {
        ReachDownward(g, t.comp, u, v);
        ReachDownward(g, t.comp, v, u);
      }
    }
  }

  lemma ReachDownward(g: Graph, comp: seq<Option<nat>>, u: nat, v: nat)
    requires Downward(g, comp) && |comp| == |g.succ| && u < |comp| && comp[u].Some? && Reachable(g, u, v)
    ensures v < |comp| && comp[v].Some? && comp[v].value <= comp[u].value
  {
    var p :| PathFromTo(g, p, u, v);
    PathDownward(g, comp, p, u, v);
  }

  /** The strongly connected components, with an explicit stack of frames. */
  method Components(g: Graph) returns (comp: seq<nat>, ncomp: nat)
    requires WellFormed(g)
    ensures AreComponents(g, comp, ncomp)
  {
    hide Inv, Ready, Shrinks, WellFormed, AreComponents, Ix;
    var n := g.N();
    var t := Search(seq(n, _ => None), seq(n, _ => 0), seq(n, _ => false), [], seq(n, _ => None), 0, 0, []);
    StartInv(g);
    for start := 0 to n
      invariant Inv(g, t) && t.dfs == [] && forall x: nat :: x < start ==> 0 <= Ix(t, x)
    {
      StartFacts(g, t, start);
      if t.index[start].None? {
        PushRoot(g, t, start);
        t := t.(dfs := [(start, 0)]);
        t := Explore(g, t, start);
      }
    }
    AllClosed(g, t);
    comp := seq(n, x requires 0 <= x < n => t.comp[x].value);
    ncomp := t.ncomp;
    ClosedComponents(g, t, comp);
  }

  lemma StartFacts(g: Graph, t: Search, start: nat)
    requires Inv(g, t) && start < g.N()
    ensures |t.index| == g.N() && (t.index[start].None? <==> Ix(t, start) < 0)
    ensures forall x: nat :: Ix(t.(dfs := [(start, 0)]), x) == Ix(t, x)
  {
  }

  /** Search everything reachable from `start`. */
  method Explore(g: Graph, s: Search, start: nat) returns (t: Search)
    requires Inv(g, s) && Ready(s) && s.dfs == [(start, 0)]
    ensures Inv(g, t) && t.dfs == [] && Kept(s, t) && 0 <= Ix(t, start)
  {
    hide Inv, Ready, Shrinks, Ix, Rest, Unseen;
    t := Turn(g, s);
    while t.dfs != []
      invariant Inv(g, t) && Ready(t) && Kept(s, t) && 0 <= Ix(t, start)
      decreases Unseen(t.index), Rest(g, t, |t.dfs|), |t.dfs|
    {
      ghost var before := t;
      RestNonNegative(g, t);
      t := Turn(g, t);
      Shrunk(g, before, t);
    }
  }

  lemma RestNonNegative(g: Graph, t: Search)
    requires Inv(g, t)
    ensures Rest(g, t, |t.dfs|) >= 0
  {
    RestPositive(g, t, |t.dfs|);
  }

  lemma Shrunk(g: Graph, t: Search, t': Search)
    requires Shrinks(g, t, t')
    ensures Unseen(t'.index) < Unseen(t.index) ||
            (Unseen(t'.index) == Unseen(t.index) && Rest(g, t', |t'.dfs|) < Rest(g, t, |t.dfs|)) ||
            (Unseen(t'.index) == Unseen(t.index) && Rest(g, t', |t'.dfs|) == Rest(g, t, |t.dfs|) && |t'.dfs| < |t.dfs|)
  {
  }
}
