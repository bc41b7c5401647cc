/**
 Dominator trees by the iterative algorithm of Cooper, Harvey and Kennedy (crates/cfg/src/dominators.rs), proved
 exact: a query answers true just when every path from the root passes through the candidate.
 */
module Dominators {
  import opened Wrappers
  import opened Graphs

  type Idom = seq<Option<nat>>

  /** The data a run works on: graph, root, postorder numbers, reachable nodes. */
  datatype Numbering = Numbering(g: Graph, root: nat, post: seq<nat>, reach: set<nat>)

  ghost predicate Numbered(m: Numbering) {
    && m.g.Valid() && m.root < m.g.N() == |m.post| && m.root in m.reach
    && (forall x :: x in m.reach ==> x < m.g.N() && m.post[x] <= m.post[m.root] < m.g.N())
    && (forall x, y :: x in m.reach && y in m.reach && x != y ==> m.post[x] != m.post[y])
    && (forall x {:trigger HasPar(m, x)} :: x in m.reach && x != m.root ==> HasPar(m, x))
  }

  ghost predicate HasPar(m: Numbering, x: nat) {
    exists p :: IsPar(m, x, p)
  }

  /** `p` is a predecessor of `x` that the depth-first search finished later. */
  ghost predicate IsPar(m: Numbering, x: nat, p: nat) {
    x < |m.post| && p < |m.post| && p in m.reach && m.g.Edge(p, x) && m.post[p] > m.post[x]
  }

  ghost function Par(m: Numbering, x: nat): (p: nat)
    requires Numbered(m) && x in m.reach && x != m.root
    ensures IsPar(m, x, p)
  {
    assert HasPar(m, x);
    var p :| IsPar(m, x, p); p
  }

  // ------------------------------------------------- the tree being built

  /** `idom` points every numbered node it knows at a known node higher up. */
  ghost predicate TreeOk(m: Numbering, idom: Idom) {
    && Numbered(m)
    && |idom| == m.g.N() && idom[m.root] == Some(m.root)
    && (forall x :: Known(m, idom, x) ==> x in m.reach)
    && (forall x {:trigger StepsUp(m, idom, x)} :: Known(m, idom, x) && x != m.root ==> StepsUp(m, idom, x))
  }

  ghost predicate StepsUp(m: Numbering, idom: Idom, x: nat) {
    && |idom| == |m.post| && Known(m, idom, x)
    && Known(m, idom, idom[x].value) && m.post[idom[x].value] > m.post[x]
  }

  ghost predicate Known(m: Numbering, idom: Idom, x: nat) {
    x < |idom| && idom[x].Some?
  }

  /** `a` is on the walk from `x` to the root along `idom`. */
  ghost predicate InChain(m: Numbering, idom: Idom, a: nat, x: nat)
    requires TreeOk(m, idom) && Known(m, idom, x)
    decreases m.post[m.root] - m.post[x]
  {
    a == x || (x != m.root && (assert StepsUp(m, idom, x); InChain(m, idom, a, idom[x].value)))
  }

  lemma {:induction false} ChainUp(m: Numbering, idom: Idom, a: nat, x: nat)
    requires TreeOk(m, idom) && Known(m, idom, x) && InChain(m, idom, a, x)
    ensures Known(m, idom, a) && a in m.reach && m.post[a] >= m.post[x] && (a != x ==> m.post[a] > m.post[x])
    decreases m.post[m.root] - m.post[x]
  {
    if a != x {
      assert StepsUp(m, idom, x);
      ChainUp(m, idom, a, idom[x].value);
    }
  }

  lemma {:induction false} ChainTrans(m: Numbering, idom: Idom, a: nat, b: nat, c: nat)
    requires TreeOk(m, idom) && Known(m, idom, c) && Known(m, idom, b)
    requires InChain(m, idom, a, b) && InChain(m, idom, b, c)
    ensures InChain(m, idom, a, c)
    decreases m.post[m.root] - m.post[c]
  {
    if b != c {
      assert StepsUp(m, idom, c);
      ChainTrans(m, idom, a, b, idom[c].value);
    }
  }

  /** Two members of one chain are ordered by their postorder numbers. */
  lemma {:induction false} ChainLinear(m: Numbering, idom: Idom, a: nat, b: nat, x: nat)
    requires TreeOk(m, idom) && Known(m, idom, x) && Known(m, idom, b) && b in m.reach && a in m.reach
    requires InChain(m, idom, a, x) && InChain(m, idom, b, x) && m.post[a] >= m.post[b]
    ensures InChain(m, idom, a, b)
    decreases m.post[m.root] - m.post[x]
  {
    if b != x {
      assert StepsUp(m, idom, x);
      ChainUp(m, idom, b, x);
      ChainLinear(m, idom, a, b, idom[x].value);
    }
  }

  // ------------------------------------------ what every assignment keeps

  /** Every strict dominator of a known node dominates its recorded parent. */
  ghost predicate Sound(m: Numbering, idom: Idom) {
    forall a: nat, x: nat :: Known(m, idom, x) && x != m.root && a != x && Dominates(m.g, m.root, a, x) ==>
      Dominates(m.g, m.root, a, idom[x].value)
  }

  /** `n` is on the chain of every known predecessor of `x`. */
  ghost predicate Common(m: Numbering, idom: Idom, n: nat, x: nat)
    requires TreeOk(m, idom)
  {
    n in m.reach && forall p :: m.g.Edge(p, x) && Known(m, idom, p) ==> InChain(m, idom, n, p)
  }

  /** No common chain member of the predecessors lies below the recorded parent. */
  ghost predicate Lowest(m: Numbering, idom: Idom)
    requires TreeOk(m, idom)
  {
    forall n: nat, x: nat :: Known(m, idom, x) && x != m.root && Common(m, idom, n, x) ==>
      n < |m.post| && idom[x].value < |m.post| && m.post[n] >= m.post[idom[x].value]
  }

  /** Ancestors along the depth-first parents. */
  ghost predicate Anc(m: Numbering, a: nat, x: nat)
    requires Numbered(m) && x in m.reach
    decreases m.post[m.root] - m.post[x]
  {
    a == x || (x != m.root && Anc(m, a, Par(m, x)))
  }

  ghost predicate AlongTree(m: Numbering, idom: Idom)
    requires TreeOk(m, idom)
  {
    forall x: nat :: Known(m, idom, x) && x != m.root ==> Anc(m, idom[x].value, x)
  }

  ghost predicate Inv(m: Numbering, idom: Idom) {
    TreeOk(m, idom) && Sound(m, idom) && Lowest(m, idom) && AlongTree(m, idom)
  }

  lemma {:induction false} AncTrans(m: Numbering, a: nat, b: nat, c: nat)
    requires Numbered(m) && b in m.reach && c in m.reach && Anc(m, a, b) && Anc(m, b, c)
    ensures Anc(m, a, c)
    decreases m.post[m.root] - m.post[c]
  {
    if b != c {
      AncTrans(m, a, b, Par(m, c));
    }
  }

  lemma {:induction false} ChainAnc(m: Numbering, idom: Idom, a: nat, x: nat)
    requires TreeOk(m, idom) && AlongTree(m, idom) && Known(m, idom, x) && InChain(m, idom, a, x)
    ensures Anc(m, a, x)
    decreases m.post[m.root] - m.post[x]
  {
    if a != x {
      assert StepsUp(m, idom, x);
      ChainAnc(m, idom, a, idom[x].value);
      AncTrans(m, a, idom[x].value, x);
    }
  }

  /** Dominators are on the chain. */
  lemma {:induction false} DominatorInChain(m: Numbering, idom: Idom, a: nat, x: nat)
    requires TreeOk(m, idom) && Sound(m, idom) && Known(m, idom, x) && Dominates(m.g, m.root, a, x)
    ensures InChain(m, idom, a, x)
    decreases m.post[m.root] - m.post[x]
  {
    if x == m.root {
      assert PathFromTo(m.g, [x], x, x);
    } else if a != x {
      assert StepsUp(m, idom, x);
      DominatorInChain(m, idom, a, idom[x].value);
    }
  }

  // ------------------------------------------------- order within a pass

  /** Nodes numbered `k` and above have been visited in this pass. */
  ghost predicate Visited(m: Numbering, idom: Idom, k: int)
    requires TreeOk(m, idom)
  {
    forall x {:trigger BelowPar(m, idom, x)} :: x in m.reach && m.post[x] >= k ==> BelowPar(m, idom, x)
  }

  ghost predicate BelowPar(m: Numbering, idom: Idom, x: nat)
    requires TreeOk(m, idom) && x in m.reach
  {
    && Known(m, idom, x)
    && (x != m.root ==> Known(m, idom, Par(m, x)) && InChain(m, idom, idom[x].value, Par(m, x)))
  }

  /** In a visited region, chain members at or above an ancestor are on the ancestor's chain too. */
  lemma {:induction false} ClimbTree(m: Numbering, idom: Idom, k: int, y: nat, a: nat, x: nat)
    requires TreeOk(m, idom) && Visited(m, idom, k)
    requires x in m.reach && m.post[x] >= k && a in m.reach && Anc(m, a, x)
    requires Known(m, idom, x) && InChain(m, idom, y, x) && y in m.reach && m.post[y] >= m.post[a]
    ensures Known(m, idom, a) && InChain(m, idom, y, a)
    decreases m.post[m.root] - m.post[x]
  {
    if a != x {
      var p := Par(m, x);
      AncAbove(m, a, p);
      assert BelowPar(m, idom, x) && BelowPar(m, idom, p) && StepsUp(m, idom, x);
      ChainTrans(m, idom, y, idom[x].value, p);
      ClimbTree(m, idom, k, y, a, p);
    }
  }

  lemma {:induction false} AncAbove(m: Numbering, a: nat, x: nat)
    requires Numbered(m) && x in m.reach && Anc(m, a, x)
    ensures a in m.reach && m.post[a] >= m.post[x]
    decreases m.post[m.root] - m.post[x]
  {
    if a != x {
      AncAbove(m, a, Par(m, x));
    }
  }

  // ------------------------------------------------------- one assignment

  /** What the fold over the predecessors of `b` returns. */
  ghost predicate Merged(m: Numbering, idom: Idom, b: nat, n: nat)
    requires TreeOk(m, idom)
  {
    && Common(m, idom, n, b) && Known(m, idom, n)
    && (forall y :: Common(m, idom, y, b) ==> InChain(m, idom, y, n))
    && (forall a :: a != b && Dominates(m.g, m.root, a, b) ==> Dominates(m.g, m.root, a, n))
  }

  /** A node whose chain stays above `b` does not notice an assignment to `b`. */
  lemma {:induction false} ChainAboveKept(m: Numbering, idom: Idom, idom': Idom, b: nat, n: nat, y: nat, x: nat)
    requires TreeOk(m, idom) && TreeOk(m, idom') && b in m.reach && idom' == idom[b := Some(n)]
    requires Known(m, idom, x) && m.post[x] > m.post[b]
    ensures Known(m, idom', x) && (InChain(m, idom', y, x) <==> InChain(m, idom, y, x))
    decreases m.post[m.root] - m.post[x]
  {
    if x != m.root {
      assert StepsUp(m, idom, x) && StepsUp(m, idom', x);
      ChainAboveKept(m, idom, idom', b, n, y, idom[x].value);
    }
  }

  /** Chains only lose members when the new parent is already on the old chain. */
  lemma {:induction false} ChainShrinks(m: Numbering, idom: Idom, idom': Idom, b: nat, n: nat, y: nat, x: nat)
    requires TreeOk(m, idom) && TreeOk(m, idom') && b in m.reach && b != m.root && idom' == idom[b := Some(n)]
    requires Known(m, idom, n) && m.post[n] > m.post[b]
    requires Known(m, idom, b) ==> InChain(m, idom, n, b)
    requires Known(m, idom, x) && InChain(m, idom', y, x)
    ensures InChain(m, idom, y, x)
    decreases m.post[m.root] - m.post[x]
  {
    if y != x {
      assert StepsUp(m, idom', x);
      assert x != b ==> StepsUp(m, idom, x);
      if x == b {
        ChainAboveKept(m, idom, idom', b, n, y, n);
        ChainTrans(m, idom, y, n, b);
      } else {
        ChainShrinks(m, idom, idom', b, n, y, idom[x].value);
      }
    }
  }

  /** The new parent is on the chain that `b` already had. */
  lemma NewParentOnOldChain(m: Numbering, idom: Idom, b: nat, n: nat)
    requires Inv(m, idom) && b in m.reach && b != m.root && Known(m, idom, b)
    requires Visited(m, idom, m.post[b] + 1) && Merged(m, idom, b, n)
    ensures InChain(m, idom, n, b) && m.post[n] >= m.post[idom[b].value]
  {
    var i := idom[b].value;
    var p := Par(m, b);
    assert StepsUp(m, idom, b) && BelowPar(m, idom, p);
    assert Anc(m, i, b);
    assert InChain(m, idom, n, p);
    ClimbTree(m, idom, m.post[b] + 1, n, i, p);
  }

  lemma AssignTree(m: Numbering, idom: Idom, b: nat, n: nat)
    requires Inv(m, idom) && b in m.reach && b != m.root
    requires Visited(m, idom, m.post[b] + 1) && Merged(m, idom, b, n)
    ensures m.post[n] > m.post[b] && TreeOk(m, idom[b := Some(n)])
  {
    hide Sound, Lowest, AlongTree;
    var idom' := idom[b := Some(n)];
    var p := Par(m, b);
    assert BelowPar(m, idom, p);
    ChainUp(m, idom, n, p);
    forall x | Known(m, idom', x) && x != m.root ensures StepsUp(m, idom', x) {
      if x != b {
        assert Known(m, idom, x) && StepsUp(m, idom, x);
      }
    }
  }

  lemma CommonShrinks(m: Numbering, idom: Idom, idom': Idom, b: nat, n: nat, y: nat, x: nat)
    requires TreeOk(m, idom) && TreeOk(m, idom') && b in m.reach && b != m.root && idom' == idom[b := Some(n)]
    requires Known(m, idom, n) && m.post[n] > m.post[b]
    requires Known(m, idom, b) ==> InChain(m, idom, n, b)
    requires Common(m, idom', y, x)
    ensures Common(m, idom, y, x)
  {
    forall p | m.g.Edge(p, x) && Known(m, idom, p) ensures InChain(m, idom, y, p) {
      assert Known(m, idom', p);
      ChainShrinks(m, idom, idom', b, n, y, p);
    }
  }

  /** One assignment keeps the invariant and extends the visited region by `b`. */
  lemma Assign(m: Numbering, idom: Idom, b: nat, n: nat)
    requires Inv(m, idom) && b in m.reach && b != m.root
    requires Visited(m, idom, m.post[b] + 1) && Merged(m, idom, b, n)
    ensures Inv(m, idom[b := Some(n)]) && Visited(m, idom[b := Some(n)], m.post[b])
  {
    var idom' := idom[b := Some(n)];
    AssignTree(m, idom, b, n);
    if Known(m, idom, b) {
      NewParentOnOldChain(m, idom, b, n);
    }
    AssignLowest(m, idom, b, n);
    AssignAlongTree(m, idom, b, n);
    AssignVisited(m, idom, b, n);
    assert Sound(m, idom');
  }

  lemma AssignLowest(m: Numbering, idom: Idom, b: nat, n: nat)
    requires TreeOk(m, idom) && Lowest(m, idom) && b in m.reach && b != m.root && Merged(m, idom, b, n)
    requires m.post[n] > m.post[b] && TreeOk(m, idom[b := Some(n)])
    requires Known(m, idom, b) ==> InChain(m, idom, n, b)
    ensures Lowest(m, idom[b := Some(n)])
  {
    var idom' := idom[b := Some(n)];
    forall y: nat, x: nat | Known(m, idom', x) && x != m.root && Common(m, idom', y, x)
      ensures y < |m.post| && idom'[x].value < |m.post| && m.post[y] >= m.post[idom'[x].value]
    {
      CommonShrinks(m, idom, idom', b, n, y, x);
      assert StepsUp(m, idom', x);
      if x == b {
        ChainUp(m, idom, y, n);
      } else {
        assert Known(m, idom, x) && Common(m, idom, y, x);
        assert m.post[y] >= m.post[idom[x].value];
      }
    }
  }

  lemma AssignAlongTree(m: Numbering, idom: Idom, b: nat, n: nat)
    requires TreeOk(m, idom) && AlongTree(m, idom) && b in m.reach && b != m.root && Merged(m, idom, b, n)
    requires TreeOk(m, idom[b := Some(n)]) && Visited(m, idom, m.post[b] + 1)
    ensures AlongTree(m, idom[b := Some(n)])
  {
    var idom' := idom[b := Some(n)];
    assert BelowPar(m, idom, Par(m, b));
    ChainAnc(m, idom, n, Par(m, b));
    assert Anc(m, n, b);
    assert forall x :: Known(m, idom', x) && x != b ==> Known(m, idom, x);
  }

  lemma AssignVisited(m: Numbering, idom: Idom, b: nat, n: nat)
    requires TreeOk(m, idom) && b in m.reach && b != m.root && Merged(m, idom, b, n)
    requires m.post[n] > m.post[b] && TreeOk(m, idom[b := Some(n)]) && Visited(m, idom, m.post[b] + 1)
    ensures Visited(m, idom[b := Some(n)], m.post[b])
  {
    var idom' := idom[b := Some(n)];
    forall x | x in m.reach && m.post[x] >= m.post[b] ensures BelowPar(m, idom', x) {
      if x == m.root {
      } else {
        var p := Par(m, x);
        assert BelowPar(m, idom, p);
        if x != b {
          assert BelowPar(m, idom, x);
        }
        ChainAboveKept(m, idom, idom', b, n, idom'[x].value, p);
      }
    }
  }

  // -------------------------------------------------------- the code

  /** Two-finger walk to the nearest common member of two chains. */
  method Intersect(ghost m: Numbering, a0: nat, b0: nat, idom: array<Option<nat>>, postNum: array<nat>)
    returns (r: nat)
    requires TreeOk(m, idom[..]) && Sound(m, idom[..]) && postNum[..] == m.post
    requires Known(m, idom[..], a0) && Known(m, idom[..], b0)
    ensures Known(m, idom[..], r) && InChain(m, idom[..], r, a0) && InChain(m, idom[..], r, b0)
    ensures forall y :: InChain(m, idom[..], y, a0) && InChain(m, idom[..], y, b0) ==> InChain(m, idom[..], y, r)
    ensures forall y :: Dominates(m.g, m.root, y, a0) && Dominates(m.g, m.root, y, b0) ==> Dominates(m.g, m.root, y, r)
  {
    hide Numbered, Sound, TreeOk;
    ghost var t := idom[..];
    var a: nat, b: nat := a0, b0;
    while a != b
      invariant Walk(m, t, a0, b0, a, b)
      decreases Above(m, a) + Above(m, b)
    {
      ghost var left := Above(m, a) + Above(m, b);
      WalkFacts(m, t, a0, b0, a, b);
      while postNum[a] < postNum[b]
        invariant Walk(m, t, a0, b0, a, b) && a < |m.post| && b < |m.post|
        invariant Above(m, a) + Above(m, b) < left || (Above(m, a) + Above(m, b) == left && a != b)
        decreases Above(m, a)
      {
        WalkStep(m, t, a0, b0, a, b);
        a := idom[a].value;
        WalkFacts(m, t, a0, b0, a, b);
      }
      while postNum[b] < postNum[a]
        invariant Walk(m, t, a0, b0, a, b) && a < |m.post| && b < |m.post|
        invariant Above(m, a) + Above(m, b) < left || (m.post[a] >= m.post[b] && a != b)
        decreases Above(m, b)
      {
        WalkStep(m, t, b0, a0, b, a);
        b := idom[b].value;
        WalkFacts(m, t, a0, b0, a, b);
      }
      WalkFacts(m, t, a0, b0, a, b);
    }
    r := a;
  }

  /** How far `x` is below the root in postorder. */
  ghost function Above(m: Numbering, x: nat): int {
    if x < |m.post| && m.root < |m.post| then m.post[m.root] as int - m.post[x] as int else 0
  }

  /** Both fingers are on their chains and nothing common has been passed. */
  ghost predicate Walk(m: Numbering, t: Idom, a0: nat, b0: nat, a: nat, b: nat) {
    && TreeOk(m, t) && Known(m, t, a0) && Known(m, t, b0) && Known(m, t, a) && Known(m, t, b)
    && InChain(m, t, a, a0) && InChain(m, t, b, b0)
    && (forall y :: InChain(m, t, y, a0) && InChain(m, t, y, b0) ==> InChain(m, t, y, a) && InChain(m, t, y, b))
    && (forall y :: Dominates(m.g, m.root, y, a0) && Dominates(m.g, m.root, y, b0) ==>
          Dominates(m.g, m.root, y, a) && Dominates(m.g, m.root, y, b))
  }

  lemma WalkFacts(m: Numbering, t: Idom, a0: nat, b0: nat, a: nat, b: nat)
    requires Walk(m, t, a0, b0, a, b)
    ensures a < |m.post| && b < |m.post| && |t| == |m.post| && t[a].Some? && t[b].Some?
    ensures Walk(m, t, b0, a0, b, a)
    ensures Above(m, a) >= 0 && Above(m, b) >= 0 && (a != b ==> m.post[a] != m.post[b])
  {
  }

  /** The lower finger may step: nothing at or below it is common. */
  lemma WalkStep(m: Numbering, t: Idom, a0: nat, b0: nat, a: nat, b: nat)
    requires Walk(m, t, a0, b0, a, b) && Sound(m, t)
    requires a < |m.post| && b < |m.post| && m.post[a] < m.post[b]
    ensures a < |t| && t[a].Some?
    ensures Walk(m, t, a0, b0, t[a].value, b) && Walk(m, t, b0, a0, b, t[a].value)
    ensures Above(m, t[a].value) < Above(m, a)
  {
    assert StepsUp(m, t, a);
    var i := t[a].value;
    ChainTrans(m, t, i, a, a0);
    forall y | InChain(m, t, y, a0) && InChain(m, t, y, b0) ensures InChain(m, t, y, i) {
      ChainUp(m, t, y, b);
    }
    forall y | Dominates(m.g, m.root, y, a0) && Dominates(m.g, m.root, y, b0) ensures Dominates(m.g, m.root, y, i) {
      DominatorInChain(m, t, y, b);
      ChainUp(m, t, y, b);
    }
  }

  /** `y` is on the chain of each known node among the first `q` predecessors. */
  ghost predicate OnFirst(m: Numbering, t: Idom, preds: seq<nat>, q: nat, y: nat)
    requires TreeOk(m, t) && q <= |preds|
  {
    forall i :: 0 <= i < q && Known(m, t, preds[i]) ==> InChain(m, t, y, preds[i])
  }

  ghost predicate Folded(m: Numbering, t: Idom, b: nat, preds: seq<nat>, q: nat, cur: Option<nat>)
    requires TreeOk(m, t) && q <= |preds|
  {
    match cur
    case None => forall i :: 0 <= i < q ==> !Known(m, t, preds[i])
    case Some(n) =>
      && Known(m, t, n) && OnFirst(m, t, preds, q, n)
      && (forall y: nat :: OnFirst(m, t, preds, q, y) ==> InChain(m, t, y, n))
      && (forall a: nat :: a != b && Dominates(m.g, m.root, a, b) ==> Dominates(m.g, m.root, a, n))
  }

  lemma FoldFirst(m: Numbering, t: Idom, b: nat, preds: seq<nat>, q: nat)
    requires TreeOk(m, t) && q < |preds| && m.g.Edge(preds[q], b) && Known(m, t, preds[q])
    requires Folded(m, t, b, preds, q, None)
    ensures Folded(m, t, b, preds, q + 1, Some(preds[q]))
  {
    var p := preds[q];
    forall y: nat | OnFirst(m, t, preds, q + 1, y) ensures InChain(m, t, y, p) {
      assert Known(m, t, preds[q]);
    }
    forall a: nat | a != b && Dominates(m.g, m.root, a, b) ensures Dominates(m.g, m.root, a, p) {
      DominatesPred(m.g, m.root, a, p, b);
    }
  }

  lemma FoldNext(m: Numbering, t: Idom, b: nat, preds: seq<nat>, q: nat, cur: nat, r: nat)
    requires TreeOk(m, t) && q < |preds| && m.g.Edge(preds[q], b) && Known(m, t, preds[q])
    requires Folded(m, t, b, preds, q, Some(cur))
    requires Known(m, t, r) && InChain(m, t, r, preds[q]) && InChain(m, t, r, cur)
    requires forall y: nat :: InChain(m, t, y, preds[q]) && InChain(m, t, y, cur) ==> InChain(m, t, y, r)
    requires forall y: nat :: Dominates(m.g, m.root, y, preds[q]) && Dominates(m.g, m.root, y, cur) ==>
                 Dominates(m.g, m.root, y, r)
    ensures Folded(m, t, b, preds, q + 1, Some(r))
  {
    forall i | 0 <= i < q + 1 && Known(m, t, preds[i]) ensures InChain(m, t, r, preds[i]) {
      if i < q {
        ChainTrans(m, t, r, cur, preds[i]);
      }
    }
    forall y: nat | OnFirst(m, t, preds, q + 1, y) ensures InChain(m, t, y, r) {
      assert OnFirst(m, t, preds, q, y);
      assert Known(m, t, preds[q]);
    }
    forall a: nat | a != b && Dominates(m.g, m.root, a, b) ensures Dominates(m.g, m.root, a, r) {
      DominatesPred(m.g, m.root, a, preds[q], b);
    }
  }

  /** Merge the recorded predecessors of `b`. */
  method NewIdom(ghost m: Numbering, b: nat, preds: seq<nat>, idom: array<Option<nat>>, postNum: array<nat>)
    returns (newIdom: Option<nat>)
    requires TreeOk(m, idom[..]) && Sound(m, idom[..]) && postNum[..] == m.post
    requires forall i :: 0 <= i < |preds| ==> m.g.Edge(preds[i], b) && preds[i] < idom.Length
    ensures Folded(m, idom[..], b, preds, |preds|, newIdom)
  {
    hide TreeOk, Sound, OnFirst;
    newIdom := None;
    ghost var t := idom[..];
    for q := 0 to |preds|
      invariant Folded(m, t, b, preds, q, newIdom)
    {
      var p := preds[q];
      if idom[p].Some? {
        assert Known(m, t, p);
        match newIdom {
          case None =>
            FoldFirst(m, t, b, preds, q);
            newIdom := Some(p);
          case Some(cur) =>
            var r := Intersect(m, p, cur, idom, postNum);
            FoldNext(m, t, b, preds, q, cur, r);
            newIdom := Some(r);
        }
      } else {
        FoldSkip(m, t, b, preds, q, newIdom);
      }
    }
  }

  lemma FoldSkip(m: Numbering, t: Idom, b: nat, preds: seq<nat>, q: nat, cur: Option<nat>)
    requires TreeOk(m, t) && q < |preds| && !Known(m, t, preds[q]) && Folded(m, t, b, preds, q, cur)
    ensures Folded(m, t, b, preds, q + 1, cur)
  {
    if cur.Some? {
      forall y: nat | OnFirst(m, t, preds, q + 1, y) ensures InChain(m, t, y, cur.value) {
        assert OnFirst(m, t, preds, q, y);
      }
    }
  }

  /** In a pass every predecessor list holds the depth-first parent, so the fold finds a node. */
  lemma FoldMerges(m: Numbering, t: Idom, b: nat, preds: seq<nat>, cur: Option<nat>)
    requires Inv(m, t) && b in m.reach && b != m.root && Visited(m, t, m.post[b] + 1)
    requires preds == m.g.pred[b] && Folded(m, t, b, preds, |preds|, cur)
    ensures cur.Some? && Merged(m, t, b, cur.value)
  {
    hide Sound, Lowest, AlongTree;
    var p := Par(m, b);
    assert BelowPar(m, t, p);
    var k :| 0 <= k < |preds| && preds[k] == p;
    var n := cur.value;
    forall p: nat | m.g.Edge(p, b) && Known(m, t, p) ensures InChain(m, t, n, p) {
      var i :| 0 <= i < |preds| && preds[i] == p;
    }
    ChainUp(m, t, n, p);
    forall y: nat | Common(m, t, y, b) ensures InChain(m, t, y, n) {
      assert OnFirst(m, t, preds, |preds|, y) by {
        forall i | 0 <= i < |preds| && Known(m, t, preds[i]) ensures InChain(m, t, y, preds[i]) {
          assert m.g.Edge(preds[i], b);
        }
      }
    }
  }

  // ------------------------------------------------------- the fixpoint

  /** Cost of an entry: it only falls, because parents only move up. */
  ghost function Cost(m: Numbering, o: Option<nat>): nat {
    match o
    case None => |m.post| + 1
    case Some(i) => if i < |m.post| && m.post[i] <= |m.post| then |m.post| - m.post[i] else 0
  }

  ghost function Potential(m: Numbering, t: Idom): nat {
    if t == [] then 0 else Potential(m, t[..|t| - 1]) + Cost(m, t[|t| - 1])
  }

  lemma {:induction false} PotentialUpdate(m: Numbering, t: Idom, b: nat, v: Option<nat>)
    requires b < |t|
    ensures Potential(m, t[b := v]) == Potential(m, t) - Cost(m, t[b]) + Cost(m, v)
  {
    var t' := t[b := v];
    if b == |t| - 1 {
      assert t'[..b] == t[..b];
    } else {
      assert t'[..|t| - 1] == t[..|t| - 1][b := v];
      PotentialUpdate(m, t[..|t| - 1], b, v);
    }
  }

  /** Reading the entry again would change nothing. */
  ghost predicate Stable(m: Numbering, t: Idom, x: nat)
    requires TreeOk(m, t)
  {
    Known(m, t, x) && Common(m, t, t[x].value, x)
  }

  ghost predicate StableAbove(m: Numbering, t: Idom, k: int)
    requires TreeOk(m, t)
  {
    forall x {:trigger Stable(m, t, x)} :: x in m.reach && x != m.root && m.post[x] >= k ==> Stable(m, t, x)
  }

  /** The state in which the outer loop stops. */
  ghost predicate Settled(m: Numbering, t: Idom) {
    Inv(m, t) && Visited(m, t, 0) && StableAbove(m, t, 0)
  }

  lemma AssignCheaper(m: Numbering, t: Idom, b: nat, n: nat)
    requires Inv(m, t) && b in m.reach && b != m.root && t[b] != Some(n)
    requires Visited(m, t, m.post[b] + 1) && Merged(m, t, b, n)
    ensures Potential(m, t[b := Some(n)]) < Potential(m, t)
  {
    hide Sound, Lowest, AlongTree;
    AssignTree(m, t, b, n);
    PotentialUpdate(m, t, b, Some(n));
    if Known(m, t, b) {
      NewParentOnOldChain(m, t, b, n);
      assert StepsUp(m, t, b);
    }
  }

  ghost predicate RootOnly(m: Numbering, t: Idom) {
    |t| == m.g.N() && forall x :: 0 <= x < |t| ==> t[x] == if x == m.root then Some(m.root) else None
  }

  lemma StartInv(m: Numbering, t: Idom)
    requires Numbered(m) && RootOnly(m, t)
    ensures Inv(m, t)
  {
  }

  /** A dominator tree as `Build` returns it. */
  datatype DomTree = DomTree(idom: Idom)

  ghost predicate ReachExact(m: Numbering) {
    forall x :: x in m.reach <==> Reachable(m.g, m.root, x)
  }

  ghost predicate IsDomTree(g: Graph, root: nat, t: DomTree) {
    exists m: Numbering :: m.g == g && m.root == root && ReachExact(m) && Settled(m, t.idom)
  }

  ghost function NumberingOf(g: Graph, root: nat, order: seq<nat>, post: seq<nat>): Numbering {
    Numbering(g, root, post, Elems(order))
  }

  lemma NumberingOk(g: Graph, root: nat, order: seq<nat>, post: seq<nat>)
    requires g.Valid() && root < g.N() == |post| && IsPostorder(g, root, order)
    requires forall i :: 0 <= i < |order| ==> order[i] < |post| && post[order[i]] == i
    ensures Numbered(NumberingOf(g, root, order, post)) && ReachExact(NumberingOf(g, root, order, post))
    ensures |order| <= g.N()
  {
    hide Reachable, Elems;
    var m := NumberingOf(g, root, order, post);
    forall x ensures x in m.reach <==> x in order {
      ElemsHas(order, x);
    }
    forall x | x in m.reach ensures x < |post| && post[x] < |order| && order[post[x]] == x {
      NumbersOk(g.N(), order, post, x);
    }
    SeenBounded(g.N(), m.reach);
    OrderCount(order);
    assert post[order[|order| - 1]] == |order| - 1;
    forall x | x in m.reach && x != m.root ensures HasPar(m, x) {
      var i := post[x];
      assert HasLaterPred(g, order, i);
      var j :| i < j < |order| && g.Edge(order[j], order[i]);
      assert IsPar(m, x, order[j]);
    }
  }

  lemma ElemsHas(order: seq<nat>, x: nat)
    ensures x in Elems(order) <==> x in order
  {
  }

  lemma {:induction false} OrderCount(order: seq<nat>)
    requires Distinct(order)
    ensures |Elems(order)| == |order|
  {
    if order != [] {
      var k := |order| - 1;
      OrderCount(order[..k]);
      assert order == order[..k] + [order[k]];
      assert Elems(order) == Elems(order[..k]) + {order[k]};
      assert order[k] !in Elems(order[..k]);
    }
  }

  lemma NumbersOk(n: nat, order: seq<nat>, post: seq<nat>, x: nat)
    requires forall i :: 0 <= i < |order| ==> order[i] < |post| && post[order[i]] == i
    requires x in Elems(order)
    ensures x < |post| && post[x] < |order| && order[post[x]] == x
  {
    var i :| 0 <= i < |order| && order[i] == x;
  }

  lemma VisitRoot(m: Numbering, t: Idom, k: nat)
    requires TreeOk(m, t) && Visited(m, t, k + 1) && m.post[m.root] == k
    ensures Visited(m, t, k)
  {
    forall x | x in m.reach && m.post[x] >= k ensures BelowPar(m, t, x) {
      if m.post[x] == k {
        assert x == m.root;
      }
    }
  }

  lemma StableNext(m: Numbering, t: Idom, k: nat, b: nat)
    requires TreeOk(m, t) && StableAbove(m, t, k + 1) && b in m.reach && m.post[b] == k
    requires b != m.root ==> Stable(m, t, b)
    ensures StableAbove(m, t, k)
  {
    forall x | x in m.reach && x != m.root && m.post[x] >= k ensures Stable(m, t, x) {
      if m.post[x] == k {
        assert x == b;
      }
    }
  }

  ghost predicate RpoOk(m: Numbering, rpo: seq<nat>) {
    && (forall j :: 0 <= j < |rpo| ==> rpo[j] in m.reach && rpo[j] < |m.post| && m.post[rpo[j]] == |rpo| - 1 - j)
    && (forall x :: x in m.reach ==> x < |m.post| && m.post[x] < |rpo|)
  }

  lemma PredEdges(m: Numbering, b: nat)
    requires Numbered(m) && b < m.g.N()
    ensures forall i :: 0 <= i < |m.g.pred[b]| ==> m.g.Edge(m.g.pred[b][i], b) && m.g.pred[b][i] < m.g.N()
  {
    forall i | 0 <= i < |m.g.pred[b]| ensures m.g.Edge(m.g.pred[b][i], b) {
      assert m.g.pred[b][i] in m.g.pred[b];
    }
  }

  /** What one sweep has achieved when the nodes numbered `k` and above are done. */
  ghost predicate Swept(m: Numbering, start: Idom, t: Idom, k: int, changed: bool) {
    && Inv(m, t) && Visited(m, t, k)
    && if changed then Potential(m, t) < Potential(m, start) else t == start && StableAbove(m, t, k)
  }

  lemma SweepStart(m: Numbering, t: Idom, rpo: seq<nat>)
    requires Inv(m, t) && RpoOk(m, rpo)
    ensures Swept(m, t, t, |rpo|, false)
  {
    hide Sound, Lowest, AlongTree;
  }

  lemma SweepRoot(m: Numbering, start: Idom, t: Idom, k: nat, changed: bool)
    requires Swept(m, start, t, k + 1, changed) && m.post[m.root] == k
    ensures Swept(m, start, t, k, changed)
  {
    hide Sound, Lowest, AlongTree;
    VisitRoot(m, t, k);
    if !changed {
      StableNext(m, t, k, m.root);
    }
  }

  lemma SweepNode(m: Numbering, start: Idom, t: Idom, b: nat, changed: bool, cur: Option<nat>)
    requires Numbered(m) && b in m.reach && b != m.root && b < |t|
    requires Swept(m, start, t, m.post[b] + 1, changed)
    requires Folded(m, t, b, m.g.pred[b], |m.g.pred[b]|, cur)
    ensures cur.Some?
    ensures t[b] != cur ==> Swept(m, start, t[b := cur], m.post[b], true)
    ensures t[b] == cur ==> Swept(m, start, t, m.post[b], changed)
  {
    hide Sound, Lowest, AlongTree;
    FoldMerges(m, t, b, m.g.pred[b], cur);
    Assign(m, t, b, cur.value);
    if t[b] != cur {
      AssignCheaper(m, t, b, cur.value);
    } else {
      assert t[b := cur] == t;
      if !changed {
        StableHere(m, t, b, cur.value);
        StableNext(m, t, m.post[b], b);
      }
    }
  }

  lemma SweptFacts(m: Numbering, start: Idom, t: Idom, k: int, changed: bool)
    requires Swept(m, start, t, k, changed)
    ensures TreeOk(m, t) && Sound(m, t) && Numbered(m) && |t| == m.g.N()
  {
  }

  /** One sweep over the reachable nodes in reverse postorder. */
  method Sweep(ghost m: Numbering, g: Graph, root: nat, rpo: seq<nat>, idom: array<Option<nat>>, postNum: array<nat>)
    returns (changed: bool)
    requires m.g == g && m.root == root && Inv(m, idom[..]) && RpoOk(m, rpo) && postNum[..] == m.post && g.Valid()
    modifies idom
    ensures Swept(m, old(idom[..]), idom[..], 0, changed)
  {
    hide TreeOk, Sound, Numbered, Swept, Inv;
    changed := false;
    ghost var start := idom[..];
    SweepStart(m, start, rpo);
    for j := 0 to |rpo|
      invariant Swept(m, start, idom[..], |rpo| - j, changed) && postNum[..] == m.post
    {
      var b := rpo[j];
      ghost var before := idom[..];
      SweptFacts(m, start, before, |rpo| - j, changed);
      if b == root {
        SweepRoot(m, start, before, |rpo| - 1 - j, changed);
        continue;
      }
      PredEdges(m, b);
      var newIdom := NewIdom(m, b, g.pred[b], idom, postNum);
      SweepNode(m, start, before, b, changed, newIdom);
      if newIdom.Some? {
        if idom[b] != newIdom {
          idom[b] := newIdom;
          changed := true;
          assert idom[..] == before[b := newIdom];
        }
      }
    }
  }

  lemma RpoFromPost(g: Graph, root: nat, order: seq<nat>, post: seq<nat>, rpo: seq<nat>)
    requires |rpo| == |order| && forall i :: 0 <= i < |rpo| ==> rpo[i] == order[|order| - 1 - i]
    requires forall i :: 0 <= i < |order| ==> order[i] < |post| && post[order[i]] == i
    ensures RpoOk(NumberingOf(g, root, order, post), rpo)
  {
    var m := NumberingOf(g, root, order, post);
    forall x | x in m.reach ensures x < |post| && post[x] < |rpo| {
      NumbersOk(0, order, post, x);
    }
  }

  /** Run the dominance iteration until a whole sweep changes nothing. */
  method Build(numNodes: nat, root: nat, g: Graph) returns (t: DomTree)
    requires g.Valid() && numNodes == g.N() && (numNodes > 0 ==> root < numNodes)
    ensures numNodes == 0 ==> t.idom == []
    ensures numNodes > 0 ==> IsDomTree(g, root, t)
  {
    var idom := new Option<nat>[numNodes](_ => None);
    if numNodes == 0 {
      return DomTree(idom[..]);
    }
    hide IsPostorder, Inv, Numbered, RpoOk, ReachExact;
    var post := Postorder(g, root);
    var postNum := NumberPostorder(g, root, post);
    var rpo := seq(|post|, i requires 0 <= i < |post| => post[|post| - 1 - i]);
    ghost var m := NumberingOf(g, root, post, postNum[..]);
    NumberingOk(g, root, post, postNum[..]);
    RpoFromPost(g, root, post, postNum[..], rpo);
    idom[root] := Some(root);
    StartInv(m, idom[..]);
    var changed := true;
    while changed
      invariant Inv(m, idom[..]) && postNum[..] == m.post
      invariant !changed ==> Settled(m, idom[..])
      decreases Potential(m, idom[..]), changed
    {
      changed := Sweep(m, g, root, rpo, idom, postNum);
    }
    t := DomTree(idom[..]);
  }

  lemma StableHere(m: Numbering, t: Idom, b: nat, n: nat)
    requires TreeOk(m, t) && Merged(m, t, b, n) && b < |t| && t[b] == Some(n)
    ensures Stable(m, t, b)
  {
  }

  const USIZE_MAX: nat := 0xFFFF_FFFF_FFFF_FFFF

  /** Invert the postorder; unreached nodes keep the sentinel. */
  method NumberPostorder(g: Graph, root: nat, order: seq<nat>) returns (postNum: array<nat>)
    requires IsPostorder(g, root, order) && g.Valid()
    ensures fresh(postNum) && postNum.Length == g.N()
    ensures forall i :: 0 <= i < |order| ==> order[i] < g.N() && postNum[order[i]] == i
    ensures forall x :: 0 <= x < g.N() && x !in order ==> postNum[x] == USIZE_MAX
  {
    ReachInRange(g, root, order);
    hide IsPostorder;
    postNum := new nat[g.N()](_ => USIZE_MAX);
    for i := 0 to |order|
      invariant forall k :: 0 <= k < i ==> postNum[order[k]] == k
      invariant forall x :: 0 <= x < g.N() && x !in order ==> postNum[x] == USIZE_MAX
    {
      postNum[order[i]] := i;
    }
  }

  lemma ReachInRange(g: Graph, root: nat, order: seq<nat>)
    requires IsPostorder(g, root, order) && g.Valid()
    ensures forall i :: 0 <= i < |order| ==> order[i] < g.N()
    ensures forall i, j :: 0 <= i < j < |order| ==> order[i] != order[j]
  {
    forall i | 0 <= i < |order| ensures order[i] < g.N() {
      assert order[i] in order;
      var p :| PathFromTo(g, p, root, order[i]);
      if |p| > 1 {
        assert g.Edge(p[|p| - 2], p[|p| - 1]);
      }
    }
  }

  // ------------------------------------------------------------ exactness

  /** When nothing changes any more, chain members are on every path. */
  lemma {:induction false} ChainDominates(m: Numbering, t: Idom, a: nat, x: nat, p: seq<nat>)
    requires Settled(m, t) && ReachExact(m) && Known(m, t, x) && InChain(m, t, a, x)
    requires PathFromTo(m.g, p, m.root, x)
    ensures a in p
    decreases |p|
  {
    if a == x {
      assert a == p[|p| - 1];
    } else {
      assert StepsUp(m, t, x) && Stable(m, t, x);
      if |p| > 1 {
        var q := p[..|p| - 1];
        var y := q[|q| - 1];
        PathPrefix(m.g, p, m.root, x, |p| - 2);
        assert m.g.Edge(p[|p| - 2], p[|p| - 1]);
        assert BelowPar(m, t, y);
        ChainTrans(m, t, a, t[x].value, y);
        ChainDominates(m, t, a, y, q);
      }
    }
  }

  /** The recorded tree is exact, in both directions. */
  lemma TreeExact(m: Numbering, t: Idom, a: nat, b: nat)
    requires Settled(m, t) && ReachExact(m) && Known(m, t, b)
    ensures InChain(m, t, a, b) <==> Dominates(m.g, m.root, a, b)
  {
    if InChain(m, t, a, b) {
      forall p | PathFromTo(m.g, p, m.root, b) ensures a in p {
        ChainDominates(m, t, a, b, p);
      }
    }
    if Dominates(m.g, m.root, a, b) {
      DominatorInChain(m, t, a, b);
    }
  }

  /** `idom` records the immediate dominator: a strict dominator that every other strict dominator dominates. */
  lemma IdomIsImmediate(g: Graph, root: nat, t: DomTree, b: nat)
    requires IsDomTree(g, root, t) && b != root
    ensures |t.idom| == g.N()
    ensures b < g.N() ==> (t.idom[b].Some? <==> Reachable(g, root, b))
    ensures b < g.N() && t.idom[b].Some? ==>
              var i := t.idom[b].value;
              && i != b && Dominates(g, root, i, b)
              && forall a :: a != b && Dominates(g, root, a, b) ==> Dominates(g, root, a, i)
  {
    var m: Numbering :| m.g == g && m.root == root && ReachExact(m) && Settled(m, t.idom);
    if Reachable(g, root, b) {
      assert b in m.reach;
      assert BelowPar(m, t.idom, b);
      assert StepsUp(m, t.idom, b);
      TreeExact(m, t.idom, t.idom[b].value, b);
    }
  }

  /** Walk from `b` towards the root looking for `a`. */
  method QueryDominates(ghost g: Graph, ghost root: nat, t: DomTree, a: nat, b: nat) returns (r: bool)
    requires IsDomTree(g, root, t) && b < |t.idom|
    ensures r <==> Reachable(g, root, b) && Dominates(g, root, a, b)
  {
    ghost var m: Numbering :| m.g == g && m.root == root && ReachExact(m) && Settled(m, t.idom);
    QueryStart(m, t.idom, a, b);
    if t.idom[b].None? {
      return false;
    }
    hide Settled, TreeOk, ReachExact, Dominates, Reachable;
    var x := b;
    while true
      invariant TreeOk(m, t.idom) && Known(m, t.idom, x)
      invariant InChain(m, t.idom, a, x) <==> Dominates(g, root, a, b)
      decreases Above(m, x)
    {
      QueryStep(m, t.idom, a, x);
      if x == a {
        return true;
      }
      var i := t.idom[x].value;
      if i != x {
        x := i;
      } else {
        return false;
      }
    }
  }

  lemma QueryStart(m: Numbering, t: Idom, a: nat, b: nat)
    requires Settled(m, t) && ReachExact(m) && b < |t|
    ensures TreeOk(m, t) && (Known(m, t, b) <==> Reachable(m.g, m.root, b))
    ensures Known(m, t, b) ==> (InChain(m, t, a, b) <==> Dominates(m.g, m.root, a, b))
  {
    if b in m.reach {
      assert BelowPar(m, t, b);
      TreeExact(m, t, a, b);
    }
  }

  lemma QueryStep(m: Numbering, t: Idom, a: nat, x: nat)
    requires TreeOk(m, t) && Known(m, t, x)
    ensures x < |t| && t[x].Some? && (t[x].value == x <==> x == m.root)
    ensures x != m.root ==> Known(m, t, t[x].value) && 0 <= Above(m, t[x].value) < Above(m, x)
    ensures InChain(m, t, a, x) <==> a == x || (x != m.root && InChain(m, t, a, t[x].value))
  {
    if x != m.root {
      assert StepsUp(m, t, x);
    }
  }
}
