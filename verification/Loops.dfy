/**
 Natural loops (crates/cfg/src/loops.rs): back edges found through the dominator
 tree, and the loop body by reverse reachability that stops at the header.
 */
module Loops {
  import opened Graphs
  import Dominators

  datatype Loop = Loop(header: nat, latches: seq<nat>, body: set<nat>)

  /** `n -> h` is an edge whose target dominates its reachable source. */
  ghost predicate BackEdge(g: Graph, root: nat, n: nat, h: nat) {
    g.Edge(n, h) && Reachable(g, root, n) && Dominates(g, root, h, n)
  }

  /** A path from `m` to a latch that never touches the header. */
  ghost predicate LatchPath(g: Graph, header: nat, latches: seq<nat>, m: nat, p: seq<nat>) {
    IsPath(g, p) && p[0] == m && p[|p| - 1] in latches && header !in p
  }

  ghost predicate ReachesLatch(g: Graph, header: nat, latches: seq<nat>, m: nat) {
    exists p :: LatchPath(g, header, latches, m, p)
  }

  ghost predicate IsBody(g: Graph, header: nat, latches: seq<nat>, body: set<nat>) {
    forall m: nat :: m in body <==> m == header || ReachesLatch(g, header, latches, m)
  }

  lemma LatchPathCons(g: Graph, header: nat, latches: seq<nat>, m: nat, p: nat)
    requires ReachesLatch(g, header, latches, m) && g.Edge(p, m) && p != header
    ensures ReachesLatch(g, header, latches, p)
  {
    var q :| LatchPath(g, header, latches, m, q);
    var r := [p] + q;
    forall i, j | 0 <= i && j == i + 1 < |r| ensures g.Edge(r[i], r[j]) {
      if i > 0 {
        assert r[i] == q[i - 1] && r[j] == q[j - 1];
      }
    }
    assert LatchPath(g, header, latches, p, r);
  }

  /** A set holding the latches and closed under predecessors off the header holds every such path. */
  lemma {:induction false} ClosedBackward(g: Graph, header: nat, latches: seq<nat>, body: set<nat>, m: nat, p: seq<nat>)
    requires g.Valid() && forall l: nat :: l in latches ==> l in body
    requires forall x: nat, y: nat :: x in body && x != header && g.Edge(y, x) ==> y in body
    requires LatchPath(g, header, latches, m, p)
    ensures m in body
    decreases |p|
  {
    if |p| > 1 {
      var q := p[1..];
      forall i, j | 0 <= i && j == i + 1 < |q| ensures g.Edge(q[i], q[j]) {
        assert q[i] == p[i + 1] && q[j] == p[j + 1];
      }
      assert g.Edge(p[0], p[1]);
      ClosedBackward(g, header, latches, body, p[1], q);
      assert p[1] in p;
    }
  }

  /** State of the reverse search: `pending` are body nodes whose predecessors are still to come. */
  ghost predicate Growing(g: Graph, header: nat, latches: seq<nat>, body: set<nat>, pending: set<nat>) {
    && header in body
    && (forall m: nat :: m in body ==> m < g.N() && (m == header || ReachesLatch(g, header, latches, m)))
    && (forall x: nat, y: nat :: x in body && x != header && x !in pending && g.Edge(y, x) ==> y in body)
    && pending <= body && header !in pending
  }

  lemma LatchAlone(g: Graph, header: nat, latches: seq<nat>, l: nat)
    requires l in latches && l != header && l < g.N()
    ensures ReachesLatch(g, header, latches, l)
  {
    assert LatchPath(g, header, latches, l, [l]);
  }

  lemma GrowStart(g: Graph, header: nat, latches: seq<nat>)
    requires header < g.N()
    ensures Growing(g, header, latches, {header}, Elems([]))
  {
  }

  lemma GrowLatch(g: Graph, header: nat, latches: seq<nat>, body: set<nat>, stack: seq<nat>, l: nat)
    requires Growing(g, header, latches, body, Elems(stack)) && l in latches && l !in body && l < g.N()
    ensures Growing(g, header, latches, body + {l}, Elems(stack + [l]))
  {
    LatchAlone(g, header, latches, l);
    assert Elems(stack + [l]) == Elems(stack) + {l};
  }

  lemma GrowPred(g: Graph, header: nat, latches: seq<nat>, body: set<nat>, stack: seq<nat>, m: nat, p: nat)
    requires g.Valid() && Growing(g, header, latches, body, Elems(stack) + {m})
    requires m < g.N() && p in g.pred[m] && p !in body
    ensures Growing(g, header, latches, body + {p}, Elems(stack + [p]) + {m})
  {
    assert g.Edge(p, m);
    LatchPathCons(g, header, latches, m, p);
    assert Elems(stack + [p]) == Elems(stack) + {p};
  }

  lemma GrowDone(g: Graph, header: nat, latches: seq<nat>, body: set<nat>, stack: seq<nat>, m: nat)
    requires g.Valid() && Growing(g, header, latches, body, Elems(stack) + {m})
    requires m < g.N() && forall k :: 0 <= k < |g.pred[m]| ==> g.pred[m][k] in body
    ensures Growing(g, header, latches, body, Elems(stack))
  {
    forall y: nat | g.Edge(y, m) ensures y in body {
      assert y in g.pred[m];
    }
  }

  lemma GrowFacts(g: Graph, header: nat, latches: seq<nat>, body: set<nat>, stack: seq<nat>)
    requires Growing(g, header, latches, body, Elems(stack))
    ensures |body| <= g.N()
    ensures stack != [] ==> stack[|stack| - 1] < g.N()
    ensures stack != [] ==> Growing(g, header, latches, body, Elems(stack[..|stack| - 1]) + {stack[|stack| - 1]})
  {
    SeenBounded(g.N(), body);
    if stack != [] {
      assert stack == stack[..|stack| - 1] + [stack[|stack| - 1]];
      assert Elems(stack) == Elems(stack[..|stack| - 1]) + {stack[|stack| - 1]};
      assert stack[|stack| - 1] in Elems(stack);
    }
  }

  /** Walk predecessors from the latches; the header, in the body from the start, is never expanded. */
  method NaturalLoopBody(g: Graph, header: nat, latches: seq<nat>) returns (body: set<nat>)
    requires g.Valid() && header < g.N() && forall i :: 0 <= i < |latches| ==> latches[i] < g.N()
    ensures IsBody(g, header, latches, body)
  {
    hide Growing, Elems, IsBody;
    body := {header};
    var stack: seq<nat> := [];
    GrowStart(g, header, latches);
    for i := 0 to |latches|
      invariant Growing(g, header, latches, body, Elems(stack))
      invariant forall k :: 0 <= k < i ==> latches[k] in body
    {
      var latch := latches[i];
      if latch !in body {
        GrowLatch(g, header, latches, body, stack, latch);
        body := body + {latch};
        stack := stack + [latch];
      }
    }
    GrowFacts(g, header, latches, body, stack);
    while stack != []
      invariant Growing(g, header, latches, body, Elems(stack)) && |body| <= g.N()
      invariant forall k :: 0 <= k < |latches| ==> latches[k] in body
      decreases g.N() - |body|, |stack|
    {
      var m := stack[|stack| - 1];
      GrowFacts(g, header, latches, body, stack);
      stack := stack[..|stack| - 1];
      ghost var count, height := |body|, |stack|;
      for k := 0 to |g.pred[m]|
        invariant Growing(g, header, latches, body, Elems(stack) + {m})
        invariant forall k :: 0 <= k < |latches| ==> latches[k] in body
        invariant forall j :: 0 <= j < k ==> g.pred[m][j] in body
        invariant |body| > count || (|body| == count && |stack| == height)
      {
        var p := g.pred[m][k];
        if p !in body {
          GrowPred(g, header, latches, body, stack, m, p);
          body := body + {p};
          stack := stack + [p];
        }
      }
      GrowDone(g, header, latches, body, stack, m);
      GrowFacts(g, header, latches, body, stack);
    }
    BodyComplete(g, header, latches, body);
  }

  lemma BodyComplete(g: Graph, header: nat, latches: seq<nat>, body: set<nat>)
    requires g.Valid() && Growing(g, header, latches, body, Elems([]))
    requires forall k :: 0 <= k < |latches| ==> latches[k] in body
    ensures IsBody(g, header, latches, body)
  {
    forall m: nat | ReachesLatch(g, header, latches, m) ensures m in body {
      var p :| LatchPath(g, header, latches, m, p);
      ClosedBackward(g, header, latches, body, m, p);
    }
  }

  /** A loop whose latches are exactly the sources of the back edges into its header. */
  ghost predicate IsLoop(g: Graph, root: nat, l: Loop) {
    && l.header < g.N() && l.latches != []
    && (forall n: nat :: n in l.latches <==> BackEdge(g, root, n, l.header))
    && IsBody(g, l.header, l.latches, l.body)
  }

  /** The set is that of the targets of back edges. */
  ghost predicate AreHeaders(g: Graph, root: nat, headers: set<nat>) {
    forall h: nat :: h in headers <==> exists n: nat :: BackEdge(g, root, n, h)
  }

  lemma HeadersFound(g: Graph, root: nat, loops: seq<Loop>, headers: set<nat>)
    requires forall i :: 0 <= i < |loops| ==> IsLoop(g, root, loops[i])
    requires forall n: nat, h: nat :: BackEdge(g, root, n, h) ==> exists i :: 0 <= i < |loops| && loops[i].header == h
    requires headers == set i | 0 <= i < |loops| :: loops[i].header
    ensures AreHeaders(g, root, headers)
  {
    hide BackEdge, IsBody;
    forall h: nat ensures h in headers <==> exists n: nat :: BackEdge(g, root, n, h) {
      if h in headers {
        var i :| 0 <= i < |loops| && loops[i].header == h;
        assert loops[i].latches[0] in loops[i].latches;
      }
    }
  }

  /** The header dominates every reachable node of its body: the loop is entered only through it. */
  lemma HeaderDominatesBody(g: Graph, root: nat, l: Loop, m: nat)
    requires IsLoop(g, root, l) && m in l.body && Reachable(g, root, m)
    ensures Dominates(g, root, l.header, m)
  {
    forall p | PathFromTo(g, p, root, m) ensures l.header in p {
      if m == l.header {
        assert p[|p| - 1] == m;
      } else {
        var q :| LatchPath(g, l.header, l.latches, m, q);
        var latch := q[|q| - 1];
        PathConcat(g, p, q, root, m, latch);
        assert BackEdge(g, root, latch, l.header);
        assert l.header in p + q[1..];
      }
    }
  }

  /** Latches recorded so far, keyed by header: the edges of the nodes below `n` and `k` edges of `n`. */
  ghost predicate Recorded(g: Graph, root: nat, found: map<nat, seq<nat>>, n: nat, k: nat) {
    && (forall h: nat, x: nat :: h in found && x in found[h] ==> BackEdge(g, root, x, h))
    && (forall h: nat :: h in found ==> h < g.N() && found[h] != [])
    && (forall x: nat, j: nat :: x < g.N() && j < |g.succ[x]| && (x < n || (x == n && j < k)) ==>
          (BackEdge(g, root, x, g.succ[x][j]) ==> g.succ[x][j] in found && x in found[g.succ[x][j]]))
  }

  lemma RecordEdge(g: Graph, root: nat, found: map<nat, seq<nat>>, n: nat, k: nat)
    requires g.Valid() && n < g.N() && k < |g.succ[n]| && Recorded(g, root, found, n, k)
    ensures var h := g.succ[n][k];
            BackEdge(g, root, n, h) ==>
              Recorded(g, root, found[h := (if h in found then found[h] else []) + [n]], n, k + 1)
    ensures !BackEdge(g, root, n, g.succ[n][k]) ==> Recorded(g, root, found, n, k + 1)
  {
  }

  /** A latch is listed once for every edge it has into the header. */
  ghost predicate LatchPerEdge(g: Graph, l: Loop) {
    forall n: nat :: n in l.latches && n < g.N() ==> multiset(l.latches)[n] == multiset(g.succ[n])[l.header]
  }

  /** Recorded latches have their edges counted: all those of nodes below `n`, and the first `k` of `n`. */
  ghost predicate Counted(g: Graph, found: map<nat, seq<nat>>, n: nat, k: nat) {
    forall h: nat, x: nat :: h in found && x < g.N() && x in found[h] ==> CountedAt(g, found[h], h, x, n, k)
  }

  ghost predicate CountedAt(g: Graph, latches: seq<nat>, h: nat, x: nat, n: nat, k: nat)
    requires x < g.N()
  {
    && (x < n || (x == n && 0 < k <= |g.succ[n]|))
    && multiset(latches)[x] == multiset(if x < n then g.succ[x] else g.succ[n][..k])[h]
  }

  /** An edge to another header changes no count. */
  lemma CountOther(g: Graph, latches: seq<nat>, h: nat, x: nat, n: nat, k: nat)
    requires x < g.N() && n < g.N() && k < |g.succ[n]| && CountedAt(g, latches, h, x, n, k)
    requires x == n ==> g.succ[n][k] != h
    ensures CountedAt(g, latches, h, x, n, k + 1)
  {
    assert g.succ[n][..k + 1] == g.succ[n][..k] + [g.succ[n][k]];
  }

  /** The edge is counted for its own header. */
  lemma CountSame(g: Graph, root: nat, found: map<nat, seq<nat>>, n: nat, k: nat)
    requires n < g.N() && k < |g.succ[n]| && Counted(g, found, n, k) && Recorded(g, root, found, n, k)
    requires BackEdge(g, root, n, g.succ[n][k])
    ensures var h := g.succ[n][k];
            CountedAt(g, (if h in found then found[h] else []) + [n], h, n, n, k + 1)
  {
    hide BackEdge;
    var h := g.succ[n][k];
    var row := g.succ[n][..k];
    assert g.succ[n][..k + 1] == row + [h];
    var sofar := if h in found then found[h] else [];
    if n in sofar {
      assert CountedAt(g, found[h], h, n, n, k);
    }
  }

  lemma CountEdge(g: Graph, root: nat, found: map<nat, seq<nat>>, n: nat, k: nat)
    requires n < g.N() && k < |g.succ[n]| && Counted(g, found, n, k) && Recorded(g, root, found, n, k)
    ensures var h := g.succ[n][k];
            BackEdge(g, root, n, h) ==> Counted(g, found[h := (if h in found then found[h] else []) + [n]], n, k + 1)
    ensures !BackEdge(g, root, n, g.succ[n][k]) ==> Counted(g, found, n, k + 1)
  {
    hide BackEdge, CountedAt;
    var h0 := g.succ[n][k];
    forall h: nat, x: nat | h in found && x < g.N() && x in found[h] && (x != n || h != h0)
      ensures CountedAt(g, found[h], h, x, n, k + 1)
    {
      CountOther(g, found[h], h, x, n, k);
    }
    if BackEdge(g, root, n, h0) {
      CountSame(g, root, found, n, k);
      var sofar := if h0 in found then found[h0] else [];
      forall x: nat | x < g.N() && x in sofar && x != n ensures CountedAt(g, sofar + [n], h0, x, n, k + 1) {
        CountAppended(g, sofar, h0, x, n, k + 1);
      }
    }
  }

  lemma CountAppended(g: Graph, latches: seq<nat>, h: nat, x: nat, n: nat, k: nat)
    requires x < g.N() && x != n && CountedAt(g, latches, h, x, n, k)
    ensures CountedAt(g, latches + [n], h, x, n, k)
  {
  }

  lemma CountStart(g: Graph)
    ensures Counted(g, map[], 0, 0)
  {
  }

  lemma CountNext(g: Graph, found: map<nat, seq<nat>>, n: nat)
    requires n < g.N() && Counted(g, found, n, |g.succ[n]|)
    ensures Counted(g, found, n + 1, 0)
  {
    forall h: nat, x: nat | h in found && x < g.N() && x in found[h] ensures CountedAt(g, found[h], h, x, n + 1, 0) {
      assert CountedAt(g, found[h], h, x, n, |g.succ[n]|);
      assert g.succ[n][..|g.succ[n]|] == g.succ[n];
    }
  }

  lemma CountDone(g: Graph, found: map<nat, seq<nat>>, h: nat, body: set<nat>)
    requires Counted(g, found, g.N(), 0) && h in found
    ensures LatchPerEdge(g, Loop(h, found[h], body))
  {
    forall x: nat | x in found[h] && x < g.N() ensures multiset(found[h])[x] == multiset(g.succ[x])[h] {
      assert CountedAt(g, found[h], h, x, g.N(), 0);
    }
  }

  /** Detect all natural loops, in increasing order of their headers. */
  method Detect(g: Graph, root: nat, t: Dominators.DomTree) returns (loops: seq<Loop>)
    requires g.Valid() && root < g.N() && Dominators.IsDomTree(g, root, t)
    ensures forall i :: 0 <= i < |loops| ==> IsLoop(g, root, loops[i]) && LatchPerEdge(g, loops[i])
    ensures forall i, j :: 0 <= i < j < |loops| ==> loops[i].header < loops[j].header
    ensures forall n: nat, h: nat :: BackEdge(g, root, n, h) ==>
              exists i :: 0 <= i < |loops| && loops[i].header == h
  {
    hide Reachable, Dominates, IsBody, BackEdge, Counted, LatchPerEdge;
    TreeSize(g, root, t);
    hide Dominators.IsDomTree;
    var latchesByHeader: map<nat, seq<nat>> := map[];
    CountStart(g);
    for n := 0 to g.N()
      invariant Recorded(g, root, latchesByHeader, n, 0) && Counted(g, latchesByHeader, n, 0)
    {
      for k := 0 to |g.succ[n]|
        invariant Recorded(g, root, latchesByHeader, n, k) && Counted(g, latchesByHeader, n, k)
      {
        var h := g.succ[n][k];
        var back := Dominators.QueryDominates(g, root, t, h, n);
        assert back <==> BackEdge(g, root, n, h) by {
          BackEdgeOfSucc(g, root, n, k);
        }
        RecordEdge(g, root, latchesByHeader, n, k);
        CountEdge(g, root, latchesByHeader, n, k);
        if back {
          var sofar := if h in latchesByHeader then latchesByHeader[h] else [];
          latchesByHeader := latchesByHeader[h := sofar + [n]];
        }
      }
      assert Recorded(g, root, latchesByHeader, n + 1, 0);
      CountNext(g, latchesByHeader, n);
    }
    loops := [];
    ghost var place: map<nat, nat> := map[];
    for h := 0 to g.N()
      invariant forall i :: 0 <= i < |loops| ==>
                  IsLoop(g, root, loops[i]) && LatchPerEdge(g, loops[i]) && loops[i].header < h
      invariant forall i, j :: 0 <= i < j < |loops| ==> loops[i].header < loops[j].header
      invariant forall x: nat :: x in latchesByHeader && x < h ==>
                  x in place && place[x] < |loops| && loops[place[x]].header == x
    {
      if h in latchesByHeader {
        var latches := latchesByHeader[h];
        LatchesExact(g, root, latchesByHeader, h);
        var body := NaturalLoopBody(g, h, latches);
        CountDone(g, latchesByHeader, h, body);
        loops := loops + [Loop(h, latches, body)];
        place := place[h := |loops| - 1];
      }
    }
    forall n: nat, h: nat | BackEdge(g, root, n, h)
      ensures exists i :: 0 <= i < |loops| && loops[i].header == h
    {
      BackEdgeIndex(g, root, latchesByHeader, n, h);
      assert loops[place[h]].header == h;
    }
  }

  lemma TreeSize(g: Graph, root: nat, t: Dominators.DomTree)
    requires Dominators.IsDomTree(g, root, t)
    ensures |t.idom| == g.N()
  {
  }

  lemma BackEdgeOfSucc(g: Graph, root: nat, n: nat, k: nat)
    requires n < g.N() && k < |g.succ[n]|
    ensures BackEdge(g, root, n, g.succ[n][k]) <==> Reachable(g, root, n) && Dominates(g, root, g.succ[n][k], n)
  {
  }

  lemma BackEdgeIndex(g: Graph, root: nat, found: map<nat, seq<nat>>, n: nat, h: nat)
    requires BackEdge(g, root, n, h) && Recorded(g, root, found, g.N(), 0)
    ensures n < g.N() && h in found && n in found[h] && h < g.N()
  {
    var k :| 0 <= k < |g.succ[n]| && g.succ[n][k] == h;
  }

  lemma LatchesExact(g: Graph, root: nat, found: map<nat, seq<nat>>, h: nat)
    requires Recorded(g, root, found, g.N(), 0) && h in found && g.Valid()
    ensures found[h] != [] && forall i :: 0 <= i < |found[h]| ==> found[h][i] < g.N()
    ensures forall n: nat :: n in found[h] <==> BackEdge(g, root, n, h)
  {
    forall n: nat | BackEdge(g, root, n, h) ensures n in found[h] {
      BackEdgeIndex(g, root, found, n, h);
    }
    forall i | 0 <= i < |found[h]| ensures found[h][i] < g.N() {
      assert BackEdge(g, root, found[h][i], h);
    }
  }
}
