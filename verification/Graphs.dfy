/**
 Directed graphs over dense node indices, paths, and the iterative postorder
 traversal shared by the control-flow graph and the dominator computation
 (crates/cfg/src/graph.rs, crates/cfg/src/dominators.rs).
 */
module Graphs {

  /** Successor and predecessor lists over the nodes `0..N()`. */
  datatype Graph = Graph(succ: seq<seq<nat>>, pred: seq<seq<nat>>) {

    function N(): nat {
      |succ|
    }

    predicate Edge(i: nat, j: nat) {
      i < |succ| && j in succ[i]
    }

    ghost predicate Valid() {
      && |succ| == |pred|
      && (forall i, k :: 0 <= i < |succ| && 0 <= k < |succ[i]| ==> succ[i][k] < |succ|)
      && (forall i, k :: 0 <= i < |pred| && 0 <= k < |pred[i]| ==> pred[i][k] < |succ|)
      && (forall i, j :: 0 <= i < |succ| && 0 <= j < |succ| ==> (j in succ[i] <==> i in pred[j]))
    }
  }

  // ---------------------------------------------------------------- paths

  ghost predicate IsPath(g: Graph, p: seq<nat>) {
    && 0 < |p| && p[0] < g.N()
    && forall i, j :: 0 <= i && j == i + 1 < |p| ==> g.Edge(p[i], p[j])
  }

  ghost predicate PathFromTo(g: Graph, p: seq<nat>, a: nat, b: nat) {
    IsPath(g, p) && p[0] == a && p[|p| - 1] == b
  }

  ghost predicate Reachable(g: Graph, a: nat, b: nat) {
    exists p :: PathFromTo(g, p, a, b)
  }

  /** `a` is on every path from `root` to `b`. */
  ghost predicate Dominates(g: Graph, root: nat, a: nat, b: nat) {
    forall p :: PathFromTo(g, p, root, b) ==> a in p
  }

  lemma PathSnoc(g: Graph, p: seq<nat>, a: nat, x: nat, y: nat)
    requires PathFromTo(g, p, a, x) && g.Edge(x, y)
    ensures PathFromTo(g, p + [y], a, y)
  {
  }

  lemma PathConcat(g: Graph, p: seq<nat>, q: seq<nat>, a: nat, b: nat, c: nat)
    requires PathFromTo(g, p, a, b) && PathFromTo(g, q, b, c)
    ensures PathFromTo(g, p + q[1..], a, c)
  {
    var r := p + q[1..];
    forall k, l | 0 <= k && l == k + 1 < |r| ensures g.Edge(r[k], r[l]) {
      if k < |p| - 1 {
      } else {
        assert r[k] == q[k - (|p| - 1)] && r[l] == q[l - (|p| - 1)];
      }
    }
    if |q| == 1 {
      assert r == p;
    } else {
      assert r[|r| - 1] == q[|q| - 1];
    }
  }

  lemma PathPrefix(g: Graph, p: seq<nat>, a: nat, b: nat, k: nat)
    requires PathFromTo(g, p, a, b) && k < |p|
    ensures PathFromTo(g, p[..k + 1], a, p[k])
  {
  }

  lemma ReachRefl(g: Graph, a: nat)
    requires a < g.N()
    ensures Reachable(g, a, a)
  {
    assert PathFromTo(g, [a], a, a);
  }

  lemma ReachStep(g: Graph, root: nat, x: nat, y: nat)
    requires Reachable(g, root, x) && g.Edge(x, y)
    ensures Reachable(g, root, y)
  {
    var p :| PathFromTo(g, p, root, x);
    PathSnoc(g, p, root, x, y);
  }

  lemma ReachTrans(g: Graph, a: nat, b: nat, c: nat)
    requires Reachable(g, a, b) && Reachable(g, b, c)
    ensures Reachable(g, a, c)
  {
    var p :| PathFromTo(g, p, a, b);
    var q :| PathFromTo(g, q, b, c);
    PathConcat(g, p, q, a, b, c);
  }

  /** A strict dominator of `b` dominates every predecessor of `b`. */
  lemma DominatesPred(g: Graph, root: nat, a: nat, p: nat, b: nat)
    requires Dominates(g, root, a, b) && a != b && g.Edge(p, b)
    ensures Dominates(g, root, a, p)
  {
    forall q | PathFromTo(g, q, root, p) ensures a in q {
      PathSnoc(g, q, root, p, b);
      assert a in q + [b];
    }
  }

  lemma DominatesTrans(g: Graph, root: nat, a: nat, b: nat, c: nat)
    requires Dominates(g, root, a, b) && Dominates(g, root, b, c)
    ensures Dominates(g, root, a, c)
  {
    forall p | PathFromTo(g, p, root, c) ensures a in p {
      var k :| 0 <= k < |p| && p[k] == b;
      PathPrefix(g, p, root, c, k);
      assert a in p[..k + 1];
    }
  }

  /** Two distinct reachable nodes never dominate each other. */
  lemma DominatesAntisym(g: Graph, root: nat, a: nat, b: nat, p: seq<nat>)
    requires Dominates(g, root, a, b) && Dominates(g, root, b, a)
    requires PathFromTo(g, p, root, a)
    ensures a == b
    decreases |p|
  {
    if a != b {
      var k :| 0 <= k < |p| && p[k] == b;
      PathPrefix(g, p, root, a, k);
      var j :| 0 <= j < |p[..k + 1]| && p[..k + 1][j] == a;
      PathPrefix(g, p[..k + 1], root, b, j);
      DominatesAntisym(g, root, a, b, p[..k + 1][..j + 1]);
    }
  }

  // ------------------------------------------------------------ postorder

  /**
   What the iterative depth-first search promises: every reachable node once,
   the root last, every other node below one of its predecessors, and an edge
   that climbs in the order closes a cycle.
   */
  ghost predicate IsPostorder(g: Graph, root: nat, order: seq<nat>) {
    && (forall x :: x in order <==> Reachable(g, root, x))
    && (forall i, j :: 0 <= i < j < |order| ==> order[i] != order[j])
    && 0 < |order| && order[|order| - 1] == root
    && (forall i :: 0 <= i < |order| - 1 ==> HasLaterPred(g, order, i))
    && (forall i, j :: 0 <= i < j < |order| && g.Edge(order[i], order[j]) ==> Reachable(g, order[j], order[i]))
  }

  ghost predicate HasLaterPred(g: Graph, order: seq<nat>, i: nat)
    requires i < |order|
  {
    exists j :: i < j < |order| && g.Edge(order[j], order[i])
  }

  datatype Frame = Frame(node: nat, next: nat)

  /** If a set holds the root and is closed under edges, it holds every reachable node. */
  lemma {:induction false} ClosedContains(g: Graph, root: nat, s: set<nat>, p: seq<nat>)
    requires root in s && forall x, y :: x in s && g.Edge(x, y) ==> y in s
    requires IsPath(g, p) && p[0] == root
    ensures p[|p| - 1] in s
  {
    if |p| > 1 {
      ClosedContains(g, root, s, p[..|p| - 1]);
      assert g.Edge(p[|p| - 2], p[|p| - 1]);
    }
  }

  ghost function Last(stack: seq<Frame>): Frame
    requires stack != []
  {
    stack[|stack| - 1]
  }

  ghost function Init(stack: seq<Frame>): seq<Frame>
    requires stack != []
  {
    stack[..|stack| - 1]
  }

  ghost function Nodes(stack: seq<Frame>): set<nat> {
    if stack == [] then {} else Nodes(Init(stack)) + {Last(stack).node}
  }

  /** The open frames spell a path of distinct nodes from the root; their scanned successors have been seen. */
  ghost predicate Open(g: Graph, root: nat, seen: set<nat>, stack: seq<Frame>) {
    stack == [] ||
    var t := Last(stack);
    && t.node < g.N() && t.next <= |g.succ[t.node]|
    && (forall k :: 0 <= k < t.next ==> g.succ[t.node][k] in seen)
    && t.node !in Nodes(Init(stack))
    && (if Init(stack) == [] then t.node == root else g.Edge(Last(Init(stack)).node, t.node))
    && Open(g, root, seen, Init(stack))
  }

  lemma {:induction false} OpenGrows(g: Graph, root: nat, seen: set<nat>, more: set<nat>, stack: seq<Frame>)
    requires Open(g, root, seen, stack) && seen <= more
    ensures Open(g, root, more, stack)
  {
    if stack != [] {
      OpenGrows(g, root, seen, more, Init(stack));
    }
  }

  /** Every open node reaches the top of the stack. */
  lemma {:induction false} OpenReachesTop(g: Graph, root: nat, seen: set<nat>, stack: seq<Frame>, y: nat)
    requires Open(g, root, seen, stack) && y in Nodes(stack)
    ensures Reachable(g, y, Last(stack).node)
  {
    if y == Last(stack).node {
      ReachRefl(g, y);
    } else {
      OpenReachesTop(g, root, seen, Init(stack), y);
      ReachStep(g, y, Last(Init(stack)).node, Last(stack).node);
    }
  }

  /** `seen` is what is finished (`done`) or still open, each once. */
  ghost predicate Shape(g: Graph, root: nat, seen: set<nat>, done: set<nat>, open: set<nat>) {
    && root in seen && seen == done + open && done !! open
    && forall x :: x in seen ==> x < g.N() && Reachable(g, root, x)
  }

  ghost predicate Distinct(order: seq<nat>) {
    forall i, j :: 0 <= i < j < |order| ==> order[i] != order[j]
  }

  ghost function Elems(order: seq<nat>): set<nat> {
    set x | x in order
  }

  /** A finished node has every successor seen, and an edge to a later or open node closes a cycle. */
  ghost predicate Finished(g: Graph, seen: set<nat>, order: seq<nat>, open: set<nat>) {
    && (forall x, y :: x in order && g.Edge(x, y) ==> y in seen)
    && (forall i, j :: 0 <= i < j < |order| && g.Edge(order[i], order[j]) ==> Reachable(g, order[j], order[i]))
    && (forall x, y :: x in order && y in open && g.Edge(x, y) ==> Reachable(g, y, x))
  }

  /** Every finished node but the root has a predecessor later in the order or still open. */
  ghost predicate Parents(g: Graph, root: nat, order: seq<nat>, open: set<nat>) {
    && (open == {} ==> 0 < |order| && order[|order| - 1] == root)
    && forall i :: 0 <= i < |order| && (open == {} ==> i < |order| - 1) ==>
         HasLaterPred(g, order, i) || HasOpenPred(g, open, order[i])
  }

  ghost predicate HasOpenPred(g: Graph, open: set<nat>, x: nat) {
    exists y :: y in open && g.Edge(y, x)
  }

  ghost predicate SearchInv(g: Graph, root: nat, seen: set<nat>, order: seq<nat>, stack: seq<Frame>) {
    && Shape(g, root, seen, Elems(order), Nodes(stack))
    && Distinct(order)
    && Open(g, root, seen, stack)
    && Finished(g, seen, order, Nodes(stack))
    && Parents(g, root, order, Nodes(stack))
  }

  /** The top frame moves past a successor that has already been seen. */
  lemma Advance(g: Graph, root: nat, seen: set<nat>, order: seq<nat>, stack: seq<Frame>)
    requires stack != [] && SearchInv(g, root, seen, order, stack)
    requires var t := Last(stack); t.next < |g.succ[t.node]| && g.succ[t.node][t.next] in seen
    ensures SearchInv(g, root, seen, order, stack[|stack| - 1 := Frame(Last(stack).node, Last(stack).next + 1)])
  {
    hide Shape, Distinct, Finished, Parents;
    var t := Last(stack);
    var stack' := stack[|stack| - 1 := Frame(t.node, t.next + 1)];
    assert Init(stack') == Init(stack);
    assert Nodes(stack') == Nodes(stack);
  }

  lemma PushOpen(g: Graph, root: nat, seen: set<nat>, stack: seq<Frame>, s: nat)
    requires stack != [] && Open(g, root, seen, stack)
    requires Last(stack).next < |g.succ[Last(stack).node]| && g.succ[Last(stack).node][Last(stack).next] == s
    requires s !in Nodes(stack) && s < g.N()
    ensures var mid := stack[|stack| - 1 := Frame(Last(stack).node, Last(stack).next + 1)];
            Open(g, root, seen + {s}, mid + [Frame(s, 0)]) && Nodes(mid + [Frame(s, 0)]) == Nodes(stack) + {s}
  {
    var mid := stack[|stack| - 1 := Frame(Last(stack).node, Last(stack).next + 1)];
    assert Init(mid) == Init(stack);
    OpenGrows(g, root, seen, seen + {s}, Init(stack));
    assert Open(g, root, seen + {s}, mid);
    var longer := mid + [Frame(s, 0)];
    assert Init(longer) == mid && Last(longer) == Frame(s, 0);
  }

  /** A successor seen for the first time opens a frame. */
  lemma Push(g: Graph, root: nat, seen: set<nat>, order: seq<nat>, stack: seq<Frame>, s: nat)
    requires stack != [] && SearchInv(g, root, seen, order, stack)
    requires Last(stack).next < |g.succ[Last(stack).node]| && g.succ[Last(stack).node][Last(stack).next] == s
    requires s !in seen && s < g.N()
    ensures var mid := stack[|stack| - 1 := Frame(Last(stack).node, Last(stack).next + 1)];
            SearchInv(g, root, seen + {s}, order, mid + [Frame(s, 0)])
  {
    PushOpen(g, root, seen, stack, s);
    ReachStep(g, root, Last(stack).node, s);
    PushFinished(g, seen, order, Nodes(stack), s);
    PushParents(g, root, order, Nodes(stack), s);
  }

  lemma PushFinished(g: Graph, seen: set<nat>, order: seq<nat>, open: set<nat>, s: nat)
    requires Finished(g, seen, order, open) && s !in seen
    ensures Finished(g, seen + {s}, order, open + {s})
  {
  }

  lemma PushParents(g: Graph, root: nat, order: seq<nat>, open: set<nat>, s: nat)
    requires Parents(g, root, order, open) && open != {}
    ensures Parents(g, root, order, open + {s})
  {
    forall i | 0 <= i < |order| && HasOpenPred(g, open, order[i])
      ensures HasOpenPred(g, open + {s}, order[i])
    {
      var y :| y in open && g.Edge(y, order[i]);
      assert y in open + {s};
    }
  }

  /** A frame whose successors are all seen is finished. */
  lemma Pop(g: Graph, root: nat, seen: set<nat>, order: seq<nat>, stack: seq<Frame>)
    requires stack != [] && SearchInv(g, root, seen, order, stack)
    requires var t := Last(stack); t.next == |g.succ[t.node]|
    ensures SearchInv(g, root, seen, order + [Last(stack).node], Init(stack))
  {
    var t := Last(stack).node;
    var rest := Init(stack);
    var open := Nodes(rest);
    assert Elems(order + [t]) == Elems(order) + {t};
    assert Distinct(order + [t]) by {
      assert t !in Elems(order);
    }
    forall y | y in open ensures Reachable(g, y, t) {
      OpenReachesTop(g, root, seen, stack, y);
    }
    PopFinished(g, seen, order, open, t);
    if rest != [] {
      assert Last(rest).node in open;
    }
    PopParents(g, root, order, open, t);
  }

  lemma PopFinished(g: Graph, seen: set<nat>, order: seq<nat>, open: set<nat>, t: nat)
    requires Finished(g, seen, order, open + {t})
    requires forall y :: y in open ==> Reachable(g, y, t)
    requires forall y :: g.Edge(t, y) ==> y in seen
    ensures Finished(g, seen, order + [t], open)
  {
  }

  lemma PopParents(g: Graph, root: nat, order: seq<nat>, open: set<nat>, t: nat)
    requires Parents(g, root, order, open + {t})
    requires if open == {} then t == root else HasOpenPred(g, open, t)
    ensures Parents(g, root, order + [t], open)
  {
    var order' := order + [t];
    forall i | 0 <= i < |order|
      ensures HasLaterPred(g, order', i) || HasOpenPred(g, open, order'[i])
    {
      if HasLaterPred(g, order, i) {
        var j :| i < j < |order| && g.Edge(order[j], order[i]);
        assert g.Edge(order'[j], order'[i]);
      } else {
        var y :| y in open + {t} && g.Edge(y, order[i]);
        if y == t {
          assert g.Edge(order'[|order|], order'[i]);
        }
      }
    }
  }

  lemma SeenBounded(n: nat, s: set<nat>)
    requires forall x :: x in s ==> x < n
    ensures |s| <= n
  {
    if n > 0 {
      SeenBounded(n - 1, s - {n - 1});
      if n - 1 in s {
        assert |s| == |s - {n - 1}| + 1;
      }
    }
  }

  lemma SearchStart(g: Graph, root: nat)
    requires root < g.N()
    ensures SearchInv(g, root, {root}, [], [Frame(root, 0)])
  {
    ReachRefl(g, root);
    assert Init([Frame(root, 0)]) == [];
  }

  lemma SearchFacts(g: Graph, root: nat, seen: set<nat>, order: seq<nat>, stack: seq<Frame>)
    requires SearchInv(g, root, seen, order, stack)
    ensures |seen| <= g.N()
    ensures stack != [] ==> Last(stack).node < g.N() && Last(stack).next <= |g.succ[Last(stack).node]|
  {
    SeenBounded(g.N(), seen);
  }

  /** Iterative postorder DFS from `root`, one stack frame per open node. */
  method Postorder(g: Graph, root: nat) returns (order: seq<nat>)
    requires g.Valid() && root < g.N()
    ensures IsPostorder(g, root, order)
  {
    hide SearchInv;
    var visited := new bool[g.N()](i => false);
    order := [];
    var stack := [Frame(root, 0)];
    visited[root] := true;
    ghost var seen := {root};
    SearchStart(g, root);
    while stack != []
      invariant forall x :: 0 <= x < g.N() ==> (visited[x] <==> x in seen)
      invariant SearchInv(g, root, seen, order, stack)
      decreases g.N() - |seen|, |stack|, if stack == [] then 0 else Left(g, Last(stack))
    {
      SearchFacts(g, root, seen, order, stack);
      var top := |stack| - 1;
      var Frame(node, next) := stack[top];
      if next < |g.succ[node]| {
        var s := g.succ[node][next];
        if s in seen {
          Advance(g, root, seen, order, stack);
        } else {
          Push(g, root, seen, order, stack, s);
        }
        stack := stack[top := Frame(node, next + 1)];
        if !visited[s] {
          visited[s] := true;
          stack := stack + [Frame(s, 0)];
          seen := seen + {s};
          SearchFacts(g, root, seen, order, stack);
        }
      } else {
        Pop(g, root, seen, order, stack);
        order := order + [node];
        stack := stack[..top];
      }
    }
    PostorderComplete(g, root, seen, order);
  }

  /** Successors of the frame's node still to be scanned. */
  ghost function Left(g: Graph, f: Frame): int {
    if f.node < g.N() then |g.succ[f.node]| - f.next else 0
  }

  lemma PostorderComplete(g: Graph, root: nat, seen: set<nat>, order: seq<nat>)
    requires SearchInv(g, root, seen, order, [])
    ensures IsPostorder(g, root, order)
  {
    assert Nodes([]) == {};
    forall x ensures x in order <==> Reachable(g, root, x) {
      if Reachable(g, root, x) {
        var p :| PathFromTo(g, p, root, x);
        ClosedContains(g, root, seen, p);
      }
      if x in order {
        assert x in seen;
      }
    }
  }
}
