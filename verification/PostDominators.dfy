/**
 Post-dominators (crates/cfg/src/dominators.rs): dominators of the reversed graph,
 rooted at a synthetic exit that every real exit flows into.
 */
module PostDominators {
  import opened Graphs
  import Dominators

  ghost predicate IsExit(g: Graph, e: nat) {
    e < g.N() && g.succ[e] == []
  }

  /** `r` is `g` with every edge turned round and node `g.N()` in front of the exits. */
  ghost predicate IsReverse(g: Graph, r: Graph) {
    && r.N() == g.N() + 1
    && (forall a: nat, b: nat :: a < g.N() && b < g.N() ==> (r.Edge(b, a) <==> g.Edge(a, b)))
    && (forall e: nat :: r.Edge(g.N(), e) <==> IsExit(g, e))
    && (forall b: nat :: !r.Edge(b, g.N()))
  }

  /** The lists after the edges of nodes below `a`, and `k` edges of `a`, have been turned round. */
  ghost predicate Turned(g: Graph, succ: seq<seq<nat>>, pred: seq<seq<nat>>, a: nat, k: nat) {
    && |succ| == |pred| == g.N() + 1
    && (forall x: nat, y: nat :: x < g.N() + 1 && y < g.N() + 1 ==>
          (y in succ[x] <==> x < g.N() && y < g.N() && EdgeBefore(g, y, x, a, k)))
    && (forall x: nat, y: nat :: x < g.N() + 1 && y < g.N() + 1 ==> (y in succ[x] <==> x in pred[y]))
    && (forall x, j :: 0 <= x < |succ| && 0 <= j < |succ[x]| ==> succ[x][j] < g.N())
    && (forall x, j :: 0 <= x < |pred| && 0 <= j < |pred[x]| ==> pred[x][j] < g.N())
  }

  /** Edge `y -> x` is among the edges of nodes below `a` or the first `k` edges of `a`. */
  ghost predicate EdgeBefore(g: Graph, y: nat, x: nat, a: nat, k: nat) {
    y < g.N() && (if y < a then x in g.succ[y] else y == a && k <= |g.succ[a]| && x in g.succ[a][..k])
  }

  lemma TurnEdge(g: Graph, succ: seq<seq<nat>>, pred: seq<seq<nat>>, a: nat, k: nat)
    requires g.Valid() && a < g.N() && k < |g.succ[a]| && Turned(g, succ, pred, a, k)
    ensures var b := g.succ[a][k];
            Turned(g, succ[b := succ[b] + [a]], pred[a := pred[a] + [b]], a, k + 1)
  {
    var b := g.succ[a][k];
    assert g.succ[a][..k + 1] == g.succ[a][..k] + [b];
    forall x: nat, y: nat ensures EdgeBefore(g, y, x, a, k + 1) <==> EdgeBefore(g, y, x, a, k) || (y == a && x == b) {
    }
  }

  lemma TurnNode(g: Graph, succ: seq<seq<nat>>, pred: seq<seq<nat>>, a: nat)
    requires g.Valid() && a < g.N() && Turned(g, succ, pred, a, |g.succ[a]|)
    ensures Turned(g, succ, pred, a + 1, 0)
  {
    assert g.succ[a][..|g.succ[a]|] == g.succ[a];
    forall x: nat, y: nat ensures EdgeBefore(g, y, x, a + 1, 0) <==> EdgeBefore(g, y, x, a, |g.succ[a]|) {
    }
  }

  ghost predicate ExitsAdded(g: Graph, succ: seq<seq<nat>>, pred: seq<seq<nat>>, e: nat) {
    && |succ| == |pred| == g.N() + 1
    && (forall x: nat, y: nat :: x < g.N() && y < g.N() + 1 ==> (y in succ[x] <==> y < g.N() && x in g.succ[y]))
    && (forall y: nat :: y in succ[g.N()] <==> y < e && IsExit(g, y))
    && (forall x: nat, y: nat :: x < g.N() + 1 && y < g.N() + 1 ==> (y in succ[x] <==> x in pred[y]))
    && (forall x, j :: 0 <= x < |succ| && 0 <= j < |succ[x]| ==> succ[x][j] < g.N())
    && (forall x, j :: 0 <= x < |pred| && 0 <= j < |pred[x]| ==> pred[x][j] < g.N() + 1)
  }

  lemma TurnedAll(g: Graph, succ: seq<seq<nat>>, pred: seq<seq<nat>>)
    requires g.Valid() && Turned(g, succ, pred, g.N(), 0)
    ensures ExitsAdded(g, succ, pred, 0)
  {
    forall x: nat, y: nat | x < g.N() && y < g.N() ensures y in succ[x] <==> x in g.succ[y] {
      assert EdgeBefore(g, y, x, g.N(), 0) <==> x in g.succ[y];
    }
  }

  method Reverse(g: Graph) returns (r: Graph)
    requires g.Valid()
    ensures r.Valid() && IsReverse(g, r)
  {
    hide Turned;
    var n := g.N();
    var x := n;
    var succ: seq<seq<nat>> := seq(n + 1, _ => []);
    var pred: seq<seq<nat>> := seq(n + 1, _ => []);
    TurnStart(g, succ, pred);
    for a := 0 to n
      invariant Turned(g, succ, pred, a, 0)
    {
      for k := 0 to |g.succ[a]|
        invariant Turned(g, succ, pred, a, k)
      {
        var b := g.succ[a][k];
        TurnEdge(g, succ, pred, a, k);
        TurnSize(g, succ, pred, a, k);
        succ := succ[b := succ[b] + [a]];
        pred := pred[a := pred[a] + [b]];
      }
      TurnNode(g, succ, pred, a);
    }
    TurnedAll(g, succ, pred);
    for e := 0 to n
      invariant ExitsAdded(g, succ, pred, e)
    {
      if g.succ[e] == [] {
        AddExit(g, succ, pred, e);
        succ := succ[x := succ[x] + [e]];
        pred := pred[e := pred[e] + [x]];
      }
    }
    r := Graph(succ, pred);
  }

  lemma TurnStart(g: Graph, succ: seq<seq<nat>>, pred: seq<seq<nat>>)
    requires |succ| == |pred| == g.N() + 1 && forall i :: 0 <= i < |succ| ==> succ[i] == [] && pred[i] == []
    ensures Turned(g, succ, pred, 0, 0)
  {
  }

  lemma TurnSize(g: Graph, succ: seq<seq<nat>>, pred: seq<seq<nat>>, a: nat, k: nat)
    requires Turned(g, succ, pred, a, k)
    ensures |succ| == |pred| == g.N() + 1
  {
  }

  lemma AddExit(g: Graph, succ: seq<seq<nat>>, pred: seq<seq<nat>>, e: nat)
    requires g.Valid() && IsExit(g, e) && ExitsAdded(g, succ, pred, e)
    ensures var x := g.N(); ExitsAdded(g, succ[x := succ[x] + [e]], pred[e := pred[e] + [x]], e + 1)
  {
  }

  // ------------------------------------------------------------ meaning

  /** A run of the program from `b` to a real exit. */
  ghost predicate ExitPath(g: Graph, b: nat, q: seq<nat>) {
    IsPath(g, q) && q[0] == b && IsExit(g, q[|q| - 1])
  }

  ghost function Backwards(s: seq<nat>): seq<nat> {
    seq(|s|, i requires 0 <= i < |s| => s[|s| - 1 - i])
  }

  /** A path of the reversed graph from the synthetic exit is an exit path read backwards. */
  lemma PathForth(g: Graph, r: Graph, b: nat, q: seq<nat>)
    requires g.Valid() && r.Valid() && IsReverse(g, r) && ExitPath(g, b, q)
    ensures PathFromTo(r, [g.N()] + Backwards(q), g.N(), b)
  {
    InRange(g, q);
    var p := [g.N()] + Backwards(q);
    forall i, j | 0 <= i && j == i + 1 < |p| ensures r.Edge(p[i], p[j]) {
      if i > 0 {
        assert p[i] == q[|q| - i] && p[j] == q[|q| - 1 - i];
        assert g.Edge(q[|q| - 1 - i], q[|q| - i]);
      }
    }
  }

  lemma PathBack(g: Graph, r: Graph, b: nat, p: seq<nat>)
    requires g.Valid() && r.Valid() && IsReverse(g, r) && b < g.N() && PathFromTo(r, p, g.N(), b)
    ensures ExitPath(g, b, Backwards(p[1..])) && p == [g.N()] + Backwards(Backwards(p[1..]))
  {
    forall k | 1 <= k < |p| ensures p[k] < g.N() {
      assert r.Edge(p[k - 1], p[k]);
      StayInside(g, r, p, k);
    }
    var q := Backwards(p[1..]);
    assert r.Edge(p[0], p[1]);
    forall i, j | 0 <= i && j == i + 1 < |q| ensures g.Edge(q[i], q[j]) {
      assert q[i] == p[|p| - 1 - i] && q[j] == p[|p| - 2 - i];
      assert r.Edge(p[|p| - 2 - i], p[|p| - 1 - i]);
    }
  }

  lemma StayInside(g: Graph, r: Graph, p: seq<nat>, k: nat)
    requires g.Valid() && r.Valid() && IsReverse(g, r) && IsPath(r, p) && 1 <= k < |p| && p[0] == g.N()
    ensures p[k] < g.N()
  {
    assert r.Edge(p[k - 1], p[k]);
    if k == 1 {
      assert IsExit(g, p[1]);
    } else {
      StayInside(g, r, p, k - 1);
      assert p[k] < r.N() && p[k] != g.N();
    }
  }

  lemma InRange(g: Graph, q: seq<nat>)
    requires g.Valid() && IsPath(g, q)
    ensures forall k :: 0 <= k < |q| ==> q[k] < g.N()
  {
    forall k | 0 <= k < |q| ensures q[k] < g.N() {
      if k > 0 {
        assert g.Edge(q[k - 1], q[k]);
      }
    }
  }

  /** `a` post-dominates `b`: `b` can reach an exit, and every way to an exit passes `a`. */
  ghost predicate PostDominates(g: Graph, a: nat, b: nat) {
    (exists q :: ExitPath(g, b, q)) && forall q :: ExitPath(g, b, q) ==> a in q
  }

  lemma ReverseDominates(g: Graph, r: Graph, a: nat, b: nat)
    requires g.Valid() && r.Valid() && IsReverse(g, r) && a < g.N() && b < g.N()
    ensures Reachable(r, g.N(), b) && Dominates(r, g.N(), a, b) <==> PostDominates(g, a, b)
  {
    if Reachable(r, g.N(), b) && Dominates(r, g.N(), a, b) {
      var p :| PathFromTo(r, p, g.N(), b);
      PathBack(g, r, b, p);
      forall q | ExitPath(g, b, q) ensures a in q {
        PathForth(g, r, b, q);
        assert a in [g.N()] + Backwards(q);
      }
    }
    if PostDominates(g, a, b) {
      var q :| ExitPath(g, b, q);
      PathForth(g, r, b, q);
      forall p | PathFromTo(r, p, g.N(), b) ensures a in p {
        PathBack(g, r, b, p);
        assert a in Backwards(p[1..]);
        assert a in p[1..];
      }
    }
  }

  datatype PostDomTree = PostDomTree(tree: Dominators.DomTree, virtualExit: nat)

  ghost predicate IsPostDomTree(g: Graph, t: PostDomTree) {
    && t.virtualExit == g.N()
    && exists r: Graph :: r.Valid() && IsReverse(g, r) && Dominators.IsDomTree(r, g.N(), t.tree)
  }

  method New(g: Graph) returns (t: PostDomTree)
    requires g.Valid()
    ensures IsPostDomTree(g, t)
  {
    var r := Reverse(g);
    var tree := Dominators.Build(g.N() + 1, g.N(), r);
    t := PostDomTree(tree, g.N());
  }

  /** The answer is exact for every pair of real nodes. */
  method QueryPostDominates(g: Graph, t: PostDomTree, a: nat, b: nat) returns (res: bool)
    requires g.Valid() && IsPostDomTree(g, t) && a < g.N() && b < g.N()
    ensures res <==> PostDominates(g, a, b)
  {
    ghost var r: Graph :| r.Valid() && IsReverse(g, r) && Dominators.IsDomTree(r, g.N(), t.tree);
    TreeCovers(r, g.N(), t.tree);
    ReverseDominates(g, r, a, b);
    res := Dominators.QueryDominates(r, g.N(), t.tree, a, b);
  }

  lemma TreeCovers(r: Graph, root: nat, t: Dominators.DomTree)
    requires Dominators.IsDomTree(r, root, t)
    ensures |t.idom| == r.N()
  {
  }
}
