/**
 Collapsing copy cycles before solving: components of the copy graph become one node, survivors are renumbered
 densely, and every table is rewritten (crates/absint/src/pointsto.rs:884-1086).
 */
module Collapse {
  import opened Wrappers
  import opened PointsToRules
  import opened Quotient
  import PointsTo
  import Tarjan
  import G = Graphs

  // ------------------------------------------------------------ representatives

  /** Each node's representative is the smallest node of its component. */
  ghost predicate IsRep(comp: seq<nat>, rep: seq<nat>) {
    && |rep| == |comp|
    && forall v: nat :: v < |rep| ==>
         rep[v] <= v && comp[rep[v]] == comp[v] && forall u: nat :: u < rep[v] ==> comp[u] != comp[v]
  }

  lemma RepIsComp(comp: seq<nat>, rep: seq<nat>, u: nat, v: nat)
    requires IsRep(comp, rep) && u < |comp| && v < |comp|
    ensures rep[u] == rep[v] <==> comp[u] == comp[v]
    ensures rep[rep[u]] == rep[u]
  {
    assert rep[u] <= u && rep[v] <= v && rep[rep[u]] <= rep[u];
  }

  method Representatives(comp: seq<nat>, ncomp: nat) returns (rep: seq<nat>)
    requires forall v: nat :: v < |comp| ==> comp[v] < ncomp
    ensures IsRep(comp, rep)
  {
    var n := |comp|;
    var compRep: seq<Option<nat>> := seq(ncomp, _ => None);
    for v := 0 to n
      invariant |compRep| == ncomp
      invariant forall c: nat :: c < ncomp && compRep[c].Some? ==>
                  compRep[c].value < v && comp[compRep[c].value] == c &&
                  forall u: nat :: u < compRep[c].value ==> comp[u] != c
      invariant forall u: nat :: u < v ==> compRep[comp[u]].Some?
    {
      var c := comp[v];
      if compRep[c] == None || v < compRep[c].value {
        compRep := compRep[c := Some(v)];
      }
    }
    rep := seq(n, v requires 0 <= v < n => compRep[comp[v]].value);
    forall v: nat | v < n ensures rep[v] <= v {
      assert !(v < rep[v]);
    }
  }

  /** A dense numbering of the representatives in which TOP keeps 0; `pre` names each new node's representative. */
  ghost predicate IsDense(rep: seq<nat>, dense: seq<Option<nat>>, nnew: nat, pre: seq<nat>) {
    && |dense| == |rep| && |pre| == nnew
    && (forall v: nat :: v < |rep| && rep[v] == v ==> dense[v].Some?)
    && (forall v: nat :: v < |dense| && dense[v].Some? ==>
        rep[v] == v && dense[v].value < nnew && pre[dense[v].value] == v)
    && (forall j: nat :: j < nnew ==> pre[j] < |dense| && dense[pre[j]] == Some(j))
  }

  method Number(rep: seq<nat>) returns (dense: seq<Option<nat>>, nnew: nat, ghost pre: seq<nat>)
    requires rep != [] && rep[TOP] == TOP && forall v: nat :: v < |rep| ==> rep[v] < |rep|
    ensures IsDense(rep, dense, nnew, pre) && 0 < nnew <= |rep| && dense[TOP] == Some(TOP)
  {
    var n := |rep|;
    dense := seq(n, _ => None);
    dense := dense[rep[TOP] := Some(0)];
    nnew := 1;
    pre := [rep[TOP]];
    for v := 0 to n
      invariant |dense| == n && |pre| == nnew && 0 < nnew <= (if v == 0 then 1 else v) && dense[TOP] == Some(TOP)
      invariant forall u: nat :: u < v && rep[u] == u ==> dense[u].Some?
      invariant forall u: nat :: u < n && dense[u].Some? ==>
                  rep[u] == u && dense[u].value < nnew && pre[dense[u].value] == u && (u < v || u == TOP)
      invariant forall j: nat :: j < nnew ==> pre[j] < n && dense[pre[j]] == Some(j)
    {
      if rep[v] == v && dense[v] == None {
        dense := dense[v := Some(nnew)];
        pre := pre + [v];
        nnew := nnew + 1;
      }
    }
  }

  /** Old nodes to new ones: equal exactly on a component, onto `0..nnew`, fixing TOP. */
  ghost predicate IsRenumbering(comp: seq<nat>, h: seq<nat>, nnew: nat) {
    && |h| == |comp| && 0 < nnew <= |h| && h[TOP] == TOP
    && (forall u: nat :: u < |h| ==> h[u] < nnew)
    && (forall u: nat, v: nat :: u < |h| && v < |h| ==> (h[u] == h[v] <==> comp[u] == comp[v]))
    && (forall j: nat :: j < nnew ==> Hit(h, j))
  }

  ghost predicate Hit(h: seq<nat>, j: nat) {
    exists v: nat :: v < |h| && h[v] == j
  }

  lemma RenumberingFrom(comp: seq<nat>, rep: seq<nat>, dense: seq<Option<nat>>, nnew: nat, pre: seq<nat>, h: seq<nat>)
    requires IsRep(comp, rep) && IsDense(rep, dense, nnew, pre) && 0 < nnew <= |rep| && dense[TOP] == Some(TOP)
    requires |h| == |rep| && forall v: nat :: v < |rep| ==> dense[rep[v]] == Some(h[v])
    ensures IsRenumbering(comp, h, nnew)
  {
    assert rep[TOP] == TOP;
    forall u: nat, v: nat | u < |h| && v < |h| ensures h[u] == h[v] <==> comp[u] == comp[v] {
      RepIsComp(comp, rep, u, v);
    }
    forall j: nat | j < nnew ensures Hit(h, j) {
      assert rep[pre[j]] == pre[j];
      assert h[pre[j]] == j;
    }
  }

  lemma RepBound(comp: seq<nat>, rep: seq<nat>)
    requires IsRep(comp, rep)
    ensures |rep| == |comp| && forall v: nat :: v < |rep| ==> rep[v] <= v
    ensures rep != [] ==> rep[TOP] == TOP
    ensures forall v: nat :: v < |rep| ==> rep[rep[v]] == rep[v]
  {
    forall v: nat | v < |rep| ensures rep[rep[v]] == rep[v] {
      RepIsComp(comp, rep, v, v);
    }
  }

  /** The new number of every node, or nothing when no two nodes are merged. */
  method Renumber(comp: seq<nat>, ncomp: nat) returns (r: Option<seq<nat>>, nnew: nat)
    requires comp != [] && forall v: nat :: v < |comp| ==> comp[v] < ncomp
    ensures r.Some? ==> IsRenumbering(comp, r.value, nnew)
    ensures r.None? ==> forall u: nat, v: nat :: u < |comp| && v < |comp| && comp[u] == comp[v] ==> u == v
  {
    var rep := Representatives(comp, ncomp);
    RepBound(comp, rep);
    var n := |rep|;
    hide IsRep, IsDense;
    var same := true;
    for v := 0 to n
      invariant same <==> forall u: nat :: u < v ==> rep[u] == u
    {
      if rep[v] != v {
        same := false;
      }
    }
    if same {
      forall u: nat, v: nat | u < |comp| && v < |comp| && comp[u] == comp[v] ensures u == v {
        RepIsComp(comp, rep, u, v);
      }
      return None, n;
    }
    var dense, count;
    ghost var pre;
    dense, count, pre := Number(rep);
    nnew := count;
    DenseAt(rep, dense, nnew, pre);
    var h := seq(n, v requires 0 <= v < n => dense[rep[v]].value);
    RenumberingFrom(comp, rep, dense, nnew, pre, h);
    r := Some(h);
  }

  lemma DenseAt(rep: seq<nat>, dense: seq<Option<nat>>, nnew: nat, pre: seq<nat>)
    requires IsDense(rep, dense, nnew, pre)
    ensures |dense| == |rep| && forall v: nat :: v < |rep| && rep[v] == v ==> dense[v].Some?
  {
  }

  // ------------------------------------------------------------ rewriting

  ghost predicate InScope(h: seq<nat>, src: seq<(nat, nat)>) {
    forall a: nat, b: nat :: (a, b) in src ==> a < |h| && b < |h|
  }

  /** Every pair is among the renamed ones, save pairs of equals when those are dropped. */
  ghost predicate Carried(h: seq<nat>, src: seq<(nat, nat)>, out: seq<(nat, nat)>, dropSelf: bool) {
    forall a: nat, b: nat :: (a, b) in src ==>
      a < |h| && b < |h| && ((h[a], h[b]) in out || (dropSelf && h[a] == h[b]))
  }

  /** Rename a list of pairs, dropping repetitions and, if asked, pairs of equals; `extra` is appended as it is. */
  method DedupPairs(h: seq<nat>, src: seq<(nat, nat)>, dropSelf: bool, extra: seq<(nat, nat)>)
    returns (out: seq<(nat, nat)>)
    requires InScope(h, src)
    ensures Carried(h, src, out, dropSelf)
    ensures forall a: nat, b: nat :: (a, b) in out ==> PairFrom(h, src, a, b) || (a, b) in extra
    ensures forall a: nat, b: nat :: (a, b) in extra ==> (a, b) in out || (dropSelf && a == b)
    ensures forall i, j :: 0 <= i < j < |out| ==> out[i] != out[j]
  {
    hide PairFrom, InScope, Carried;
    var seen: set<(nat, nat)> := {};
    out := [];
    assert Carried(h, src[..0], out, dropSelf) by {
      CarriedNone(h, src, out, dropSelf);
    }
    for i := 0 to |src|
      invariant Deduped(seen, out) && Carried(h, src[..i], out, dropSelf)
      invariant forall a: nat, b: nat :: (a, b) in out ==> PairFrom(h, src, a, b)
    {
      var (x, y) := src[i];
      PairIntro(h, src, i);
      var a, b := h[x], h[y];
      ghost var before := out;
      if !(dropSelf && a == b) && (a, b) !in seen {
        seen := seen + {(a, b)};
        out := out + [(a, b)];
      }
      CarriedStep(h, src, i, before, out, dropSelf);
    }
    assert src[..|src|] == src;
    var all := AppendNew(seen, out, dropSelf, extra);
    CarriedMore(h, src, out, all, dropSelf);
    out := all;
  }

  lemma CarriedNone(h: seq<nat>, src: seq<(nat, nat)>, out: seq<(nat, nat)>, dropSelf: bool)
    ensures Carried(h, src[..0], out, dropSelf)
  {
  }

  lemma CarriedStep(h: seq<nat>, src: seq<(nat, nat)>, i: nat, out: seq<(nat, nat)>, out': seq<(nat, nat)>,
                    dropSelf: bool)
    requires i < |src| && Carried(h, src[..i], out, dropSelf) && out <= out' && src[i].0 < |h| && src[i].1 < |h|
    requires (h[src[i].0], h[src[i].1]) in out' || (dropSelf && h[src[i].0] == h[src[i].1])
    ensures Carried(h, src[..i + 1], out', dropSelf)
  {
    assert src[..i + 1] == src[..i] + [src[i]];
  }

  lemma CarriedMore(h: seq<nat>, src: seq<(nat, nat)>, out: seq<(nat, nat)>, out': seq<(nat, nat)>, dropSelf: bool)
    requires Carried(h, src, out, dropSelf) && forall e :: e in out ==> e in out'
    ensures Carried(h, src, out', dropSelf)
  {
  }

  lemma PairIntro(h: seq<nat>, src: seq<(nat, nat)>, i: nat)
    requires InScope(h, src) && i < |src|
    ensures src[i].0 < |h| && src[i].1 < |h| && PairFrom(h, src, h[src[i].0], h[src[i].1])
  {
    assert (src[i].0, src[i].1) in src;
  }

  method AppendNew(have: set<(nat, nat)>, list: seq<(nat, nat)>, dropSelf: bool, extra: seq<(nat, nat)>)
    returns (out: seq<(nat, nat)>)
    requires Deduped(have, list)
    ensures forall e :: e in list ==> e in out
    ensures forall e :: e in out ==> e in list || e in extra
    ensures forall a: nat, b: nat :: (a, b) in extra ==> (a, b) in out || (dropSelf && a == b)
    ensures forall i, j :: 0 <= i < j < |out| ==> out[i] != out[j]
  {
    var seen := have;
    out := list;
    for i := 0 to |extra|
      invariant Deduped(seen, out) && forall e :: e in list ==> e in out
      invariant forall e :: e in out ==> e in list || e in extra
      invariant forall a: nat, b: nat :: (a, b) in extra[..i] ==> (a, b) in out || (dropSelf && a == b)
    {
      var (a, b) := extra[i];
      if !(dropSelf && a == b) && (a, b) !in seen {
        seen := seen + {(a, b)};
        out := out + [(a, b)];
      }
    }
  }

  ghost predicate Deduped<T(!new)>(seen: set<T>, out: seq<T>) {
    && (forall e: T :: e in seen <==> e in out)
    && (forall i, j :: 0 <= i < j < |out| ==> out[i] != out[j])
  }

  method DedupGeps(h: seq<nat>, src: seq<(nat, nat, nat)>) returns (out: seq<(nat, nat, nat)>)
    requires forall a: nat, b: nat, off: nat :: (a, b, off) in src ==> a < |h| && b < |h|
    ensures GepsImage(h, src, out)
    ensures forall i, j :: 0 <= i < j < |out| ==> out[i] != out[j]
  {
    var seen: set<(nat, nat, nat)> := {};
    out := [];
    for i := 0 to |src|
      invariant Deduped(seen, out)
      invariant forall a: nat, b: nat, off: nat :: (a, b, off) in src[..i] ==> (h[a], h[b], off) in out
      invariant forall a: nat, b: nat, off: nat :: (a, b, off) in out ==> GepFrom(h, src, a, b, off)
    {
      var (x, y, off) := src[i];
      assert (x, y, off) in src;
      var e := (h[x], h[y], off);
      if e !in seen {
        assert GepFrom(h, src, h[x], h[y], off);
        seen := seen + {e};
        out := out + [e];
      }
    }
  }

  /** The image of a set of nodes. */
  function Image(h: seq<nat>, s: set<nat>): (r: set<nat>)
    requires forall x: nat :: x in s ==> x < |h|
    ensures forall x: nat :: x in s ==> h[x] in r
    ensures forall j: nat :: j in r ==> exists x: nat :: x in s && h[x] == j
  {
    set x: nat | x in s :: h[x]
  }

  /** Merge the sets of each component, their elements renamed. */
  method RebuildSets(h: seq<nat>, pts: seq<set<nat>>, nnew: nat) returns (out: seq<set<nat>>)
    requires |h| == |pts| && (forall v: nat :: v < |h| ==> h[v] < nnew)
    requires forall v: nat, o: nat :: v < |pts| && o in pts[v] ==> o < |h|
    ensures |out| == nnew && SetsUpTo(h, pts, |pts|, out)
  {
    out := seq(nnew, _ => {});
    for v := 0 to |pts|
      invariant |out| == nnew && SetsUpTo(h, pts, v, out)
    {
      SetsStep(h, pts, v, out, Image(h, pts[v]));
      out := out[h[v] := out[h[v]] + Image(h, pts[v])];
    }
  }

  ghost predicate SetsUpTo(h: seq<nat>, pts: seq<set<nat>>, k: nat, out: seq<set<nat>>)
    requires k <= |pts| <= |h|
  {
    && (forall v: nat, o: nat {:trigger Kept(h, out, v, o)} :: v < k && o in pts[v] ==> Kept(h, out, v, o))
    && (forall j: nat, c: nat :: j < |out| && c in out[j] ==> SetFrom(h, pts, k, j, c))
  }

  lemma SetsStep(h: seq<nat>, pts: seq<set<nat>>, v: nat, out: seq<set<nat>>, image: set<nat>)
    requires v < |pts| <= |h| && h[v] < |out| && SetsUpTo(h, pts, v, out)
    requires forall o: nat :: o in pts[v] ==> o < |h| && h[o] in image
    requires forall c: nat :: c in image ==> exists o: nat :: o in pts[v] && h[o] == c
    ensures SetsUpTo(h, pts, v + 1, out[h[v] := out[h[v]] + image])
  {
    var out' := out[h[v] := out[h[v]] + image];
    forall j: nat, c: nat | j < |out'| && c in out'[j] ensures SetFrom(h, pts, v + 1, j, c) {
      SetsSource(h, pts, v, out, image, j, c);
    }
    hide SetFrom;
    forall x: nat, o: nat | x < v + 1 && o in pts[x] ensures Kept(h, out', x, o) {
      if x < v {
        assert Kept(h, out, x, o);
      }
    }
  }

  lemma SetsSource(h: seq<nat>, pts: seq<set<nat>>, v: nat, out: seq<set<nat>>, image: set<nat>, j: nat, c: nat)
    requires v < |pts| <= |h| && h[v] < |out| && SetsUpTo(h, pts, v, out)
    requires forall o: nat :: o in pts[v] ==> o < |h|
    requires forall c: nat :: c in image ==> exists o: nat :: o in pts[v] && h[o] == c
    requires j < |out| && c in out[h[v] := out[h[v]] + image][j]
    ensures SetFrom(h, pts, v + 1, j, c)
  {
    if c in out[j] {
      assert SetFrom(h, pts, v, j, c);
      hide SetsUpTo;
    } else {
      hide SetsUpTo;
      var o: nat :| o in pts[v] && h[o] == c;
      assert h[v] == j;
    }
  }

  ghost predicate SetFrom(h: seq<nat>, pts: seq<set<nat>>, k: nat, j: nat, c: nat)
    requires k <= |pts| <= |h|
  {
    exists v: nat, o: nat :: v < k && o < |h| && h[v] == j && o in pts[v] && h[o] == c
  }

  type Cells = map<(nat, nat), nat>

  ghost predicate CellFrom(h: seq<nat>, cells: Cells, a: nat, off: nat, c: nat) {
    exists o: nat :: (o, off) in cells && o < |h| && cells[(o, off)] < |h| && h[o] == a && h[cells[(o, off)]] == c
  }

  ghost predicate CellsImage(h: seq<nat>, cells: Cells, out: Cells) {
    && (forall o: nat, off: nat :: (o, off) in cells ==>
          o < |h| && cells[(o, off)] < |h| && (h[o], off) in out && out[(h[o], off)] == h[cells[(o, off)]])
    && (forall a: nat, off: nat :: (a, off) in out ==> CellFrom(h, cells, a, off, out[(a, off)]))
  }

  ghost predicate CellsAlone(h: seq<nat>, cells: Cells) {
    forall o: nat, off: nat :: (o, off) in cells ==> Alone(h, o)
  }

  /**
   Rename the field cells. Two cells that land on one key keep the first and are
   to be made equal; objects that are merged with nothing never collide.
   */
  method RebuildCells(h: seq<nat>, cells: Cells) returns (out: Cells, equalize: seq<(nat, nat)>)
    requires forall o: nat, off: nat :: (o, off) in cells ==> o < |h| && cells[(o, off)] < |h|
    ensures forall o: nat, off: nat :: (o, off) in cells ==>
              (h[o], off) in out && (out[(h[o], off)] == h[cells[(o, off)]] ||
                                     (out[(h[o], off)], h[cells[(o, off)]]) in equalize)
    ensures forall a: nat, off: nat :: (a, off) in out ==> CellFrom(h, cells, a, off, out[(a, off)])
    ensures forall a: nat, b: nat :: (a, b) in equalize ==> a in h && b in h
    ensures CellsAlone(h, cells) ==> equalize == [] && CellsImage(h, cells, out)
  {
    out, equalize := map[], [];
    var left := cells.Keys;
    while left != {}
      invariant left <= cells.Keys
      invariant forall o: nat, off: nat :: (o, off) in cells.Keys - left ==>
                  (h[o], off) in out && (out[(h[o], off)] == h[cells[(o, off)]] ||
                                         (out[(h[o], off)], h[cells[(o, off)]]) in equalize)
      invariant forall a: nat, off: nat :: (a, off) in out ==>
                  CellDone(h, cells, cells.Keys - left, a, off, out[(a, off)])
      invariant forall a: nat, b: nat :: (a, b) in equalize ==> a in h && b in h
      invariant CellsAlone(h, cells) ==> equalize == []
    {
      var k :| k in left;
      var (o, off) := k;
      ghost var done := cells.Keys - left;
      var key, val := (h[o], off), h[cells[k]];
      left := left - {k};
      CellMore(h, cells, done, cells.Keys - left, out);
      if key !in out {
        out := out[key := val];
        assert (o, off) in cells.Keys - left;
        assert CellDone(h, cells, cells.Keys - left, key.0, off, val);
      } else if out[key] != val {
        assert CellDone(h, cells, done, h[o], off, out[key]);
        CellClash(h, cells, done, o, off, out[key]);
        equalize := equalize + [(out[key], val)];
      }
    }
    CellsFrom(h, cells, cells.Keys - left, out);
  }

  ghost predicate CellDone(h: seq<nat>, cells: Cells, done: set<(nat, nat)>, a: nat, off: nat, c: nat) {
    exists o: nat :: (o, off) in done && (o, off) in cells && o < |h| && cells[(o, off)] < |h| &&
                     h[o] == a && h[cells[(o, off)]] == c
  }

  lemma CellMore(h: seq<nat>, cells: Cells, done: set<(nat, nat)>, done': set<(nat, nat)>, out: Cells)
    requires done <= done'
    requires forall a: nat, off: nat :: (a, off) in out ==> CellDone(h, cells, done, a, off, out[(a, off)])
    ensures forall a: nat, off: nat :: (a, off) in out ==> CellDone(h, cells, done', a, off, out[(a, off)])
  {
    forall a: nat, off: nat | (a, off) in out ensures CellDone(h, cells, done', a, off, out[(a, off)]) {
      assert CellDone(h, cells, done, a, off, out[(a, off)]);
      var o: nat :| (o, off) in done && (o, off) in cells && o < |h| && cells[(o, off)] < |h| &&
                    h[o] == a && h[cells[(o, off)]] == out[(a, off)];
      assert (o, off) in done';
    }
  }

  lemma CellsFrom(h: seq<nat>, cells: Cells, done: set<(nat, nat)>, out: Cells)
    requires forall a: nat, off: nat :: (a, off) in out ==> CellDone(h, cells, done, a, off, out[(a, off)])
    ensures forall a: nat, off: nat :: (a, off) in out ==> CellFrom(h, cells, a, off, out[(a, off)])
  {
    forall a: nat, off: nat | (a, off) in out ensures CellFrom(h, cells, a, off, out[(a, off)]) {
      assert CellDone(h, cells, done, a, off, out[(a, off)]);
    }
  }

  /** Two cells meet on one key only if their objects were merged. */
  lemma CellClash(h: seq<nat>, cells: Cells, done: set<(nat, nat)>, o: nat, off: nat, c: nat)
    requires (o, off) in cells && (o, off) !in done && o < |h| && CellDone(h, cells, done, h[o], off, c)
    ensures !CellsAlone(h, cells) && c in h
  {
    var o': nat :| (o', off) in done && (o', off) in cells && o' < |h| && cells[(o', off)] < |h| &&
                   h[o'] == h[o] && h[cells[(o', off)]] == c;
    assert o' != o;
    assert !Alone(h, o);
  }

  type Names = map<nat, string>

  /** The name `nm` is the only one among the nodes that became `k`. */
  ghost predicate OnlyName(h: seq<nat>, names: Names, k: nat, nm: string) {
    && (exists x: nat :: x in names && x < |h| && h[x] == k)
    && (forall x: nat :: x in names && x < |h| && h[x] == k ==> names[x] == nm)
  }

  /** Rename the table of named objects; a merged node with two names loses both. */
  method RebuildNames(h: seq<nat>, names: Names) returns (out: Names)
    requires forall x: nat :: x in names ==> x < |h|
    ensures forall k: nat :: k in out ==> OnlyName(h, names, k, out[k])
    ensures forall k: nat, nm: string :: OnlyName(h, names, k, nm) ==> k in out
  {
    out := map[];
    var collided: set<nat> := {};
    var left := names.Keys;
    while left != {}
      invariant left <= names.Keys
      invariant forall x: nat :: x in names.Keys - left ==> h[x] in out && (out[h[x]] == names[x] || h[x] in collided)
      invariant forall k: nat :: k in out ==> NameFrom(h, names, k, out[k])
      invariant forall k: nat :: k in collided ==> TwoNames(h, names, k)
    {
      var x :| x in left;
      left := left - {x};
      var k := h[x];
      if k in out && out[k] != names[x] {
        assert NameFrom(h, names, k, out[k]);
        assert TwoNames(h, names, k);
        collided := collided + {k};
      } else {
        out := out[k := names[x]];
        assert NameFrom(h, names, k, names[x]);
      }
    }
    out := out - collided;
  }

  ghost predicate NameFrom(h: seq<nat>, names: Names, k: nat, nm: string) {
    exists x: nat :: x in names && x < |h| && h[x] == k && names[x] == nm
  }

  ghost predicate TwoNames(h: seq<nat>, names: Names, k: nat) {
    exists x: nat, y: nat :: x in names && y in names && x < |h| && y < |h| && h[x] == k && h[y] == k &&
        names[x] != names[y]
  }

  // ------------------------------------------------------------ the whole-program relation

  /** Edges `s -> d` for the copies seen so far. */
  ghost predicate Adjacent(adj: seq<seq<nat>>, copies: seq<(nat, nat)>) {
    forall s: nat, d: nat :: s < |adj| ==> (d in adj[s] <==> (d, s) in copies)
  }

  method CopyGraph(n: nat, copies: seq<(nat, nat)>) returns (adj: seq<seq<nat>>)
    requires forall d: nat, s: nat :: (d, s) in copies ==> d < n && s < n
    ensures |adj| == n && Adjacent(adj, copies)
  {
    adj := seq(n, _ => []);
    for i := 0 to |copies|
      invariant |adj| == n && Adjacent(adj, copies[..i])
    {
      var (d, s) := copies[i];
      assert (d, s) in copies;
      adj := adj[s := adj[s] + [d]];
    }
  }

  /** Nodes merged by `h` are exactly those that copy into each other. */
  ghost predicate MergesExactly(sys: System, h: seq<nat>, g: G.Graph) {
    && g.N() == |h| == sys.start.n
    && (forall s: nat, d: nat :: g.Edge(s, d) <==> (d, s) in sys.copies)
    && (forall u: nat, v: nat :: u < |h| && v < |h| ==>
          (h[u] == h[v] <==> G.Reachable(g, u, v) && G.Reachable(g, v, u)))
  }

  lemma MergesExactlyCycles(sys: System, h: seq<nat>, g: G.Graph)
    requires MergesExactly(sys, h, g)
    ensures MergesCycles(sys, h)
  {
    assert IsCopyGraph(sys, g);
  }

  // ------------------------------------------------------------ the merged state is well formed

  ghost function NameOf(h: seq<nat>, names: seq<Loc>, j: nat): Loc
    requires |names| == |h| && Hit(h, j)
  {
    var v: nat :| v < |h| && h[v] == j;
    Rho(h, names[v])
  }

  ghost function NewNames(h: seq<nat>, names: seq<Loc>, nnew: nat): seq<Loc>
    requires |names| == |h| && forall j: nat :: j < nnew ==> Hit(h, j)
  {
    seq(nnew, j requires 0 <= j < nnew => NameOf(h, names, j))
  }

  /** What rewriting the tables yields. */
  ghost predicate Rewritten(st: State, t: State, h: seq<nat>) {
    && |h| == |st.pts| == |st.names| == st.n && |t.pts| == t.n && 0 < t.n <= st.n && h[TOP] == TOP
    && (forall v: nat :: v < |h| ==> h[v] < t.n) && (forall j: nat :: j < t.n ==> Hit(h, j))
    && SetsUpTo(h, st.pts, |st.pts|, t.pts)
    && CellsImage(h, st.cells, t.cells)
    && (forall o: nat :: o in st.poisoned ==> o < |h| && h[o] in t.poisoned)
    && (forall j: nat :: j in t.poisoned ==> exists o: nat :: o in st.poisoned && h[o] == j)
    && t.saturated == {}
    && t.names == NewNames(h, st.names, t.n)
  }

  /** Nodes merged with each other are plain variables, so the name of the result does not depend on the choice. */
  lemma NameAt(sys: System, t: State, h: seq<nat>, x: nat)
    requires Good(sys.start) && ObjectsAlone(sys, h) && Rewritten(sys.start, t, h) && x < sys.start.n
    ensures h[x] < |t.names| && t.names[h[x]] == Rho(h, sys.start.names[x])
  {
    var v := NameSource(sys.start, t, h, x);
    hide *;
    if v != x {
      PlainWhenMerged(sys, h, v, x);
      PlainWhenMerged(sys, h, x, v);
      RhoBase(h, v);
      RhoBase(h, x);
    }
  }

  lemma RhoBase(h: seq<nat>, x: nat)
    requires x < |h|
    ensures Rho(h, Base(x)) == Base(h[x])
  {
  }

  lemma NameSource(st: State, t: State, h: seq<nat>, x: nat) returns (v: nat)
    requires Rewritten(st, t, h) && x < st.n
    ensures |h| == |st.names| == st.n && v < |h| && h[v] == h[x] && h[x] < |t.names|
    ensures t.names[h[x]] == Rho(h, st.names[v])
  {
    hide CellsImage, SetsUpTo;
    assert t.names == NewNames(h, st.names, t.n);
    assert Hit(h, h[x]) && t.names[h[x]] == NameOf(h, st.names, h[x]);
    v :| v < |h| && h[v] == h[x] && t.names[h[x]] == Rho(h, st.names[v]);
  }

  lemma PlainWhenMerged(sys: System, h: seq<nat>, x: nat, y: nat)
    requires Good(sys.start) && ObjectsAlone(sys, h) && |h| == sys.start.n && x < |h| && y < |h| && x != y
    requires h[x] == h[y]
    ensures sys.start.names[x] == Base(x)
  {
    assert !Alone(h, x);
  }

  lemma ImageBounds(sys: System, t: State, h: seq<nat>)
    requires Good(sys.start) && ObjectsAlone(sys, h) && Rewritten(sys.start, t, h)
    ensures InBounds(t)
  {
    var st := sys.start;
    forall x: nat, o: nat | x < t.n && o in t.pts[x] ensures o < t.n {
      assert SetFrom(h, st.pts, |st.pts|, x, o);
    }
    forall a: nat, off: nat | (a, off) in t.cells
      ensures a < t.n && t.cells[(a, off)] < t.n && a != TOP && off != 0 && off != ANY_OFFSET
    {
      assert CellFrom(h, st.cells, a, off, t.cells[(a, off)]);
      var o: nat :| (o, off) in st.cells && o < |h| && st.cells[(o, off)] < |h| && h[o] == a;
      assert Alone(h, TOP);
    }
  }

  lemma ImageCell(sys: System, t: State, h: seq<nat>, a: nat, off: nat) returns (o: nat)
    requires Good(sys.start) && ObjectsAlone(sys, h) && Rewritten(sys.start, t, h) && (a, off) in t.cells
    ensures (o, off) in sys.start.cells && o < sys.start.n && h[o] == a && sys.start.cells[(o, off)] < sys.start.n
    ensures t.cells[(a, off)] == h[sys.start.cells[(o, off)]] && Alone(h, o)
  {
    assert CellFrom(h, sys.start.cells, a, off, t.cells[(a, off)]);
    o :| (o, off) in sys.start.cells && o < |h| && sys.start.cells[(o, off)] < |h| && h[o] == a &&
         h[sys.start.cells[(o, off)]] == t.cells[(a, off)];
  }

  lemma ImageNamed(sys: System, t: State, h: seq<nat>)
    requires Good(sys.start) && ObjectsAlone(sys, h) && Rewritten(sys.start, t, h) && InBounds(t)
    ensures Named(t)
  {
    var st := sys.start;
    NameAt(sys, t, h, TOP);
    forall a: nat, off: nat | (a, off) in t.cells ensures t.names[t.cells[(a, off)]] == Field(t.names[a], off) {
      var o := ImageCell(sys, t, h, a, off);
      NameAt(sys, t, h, o);
      NameAt(sys, t, h, st.cells[(o, off)]);
    }
    forall j: nat | j < t.n ensures t.names[j] == Base(j) || IsCell(t, j) {
      NamedImage(sys, t, h, j);
    }
    forall j: nat, k: nat | j < k < t.n ensures t.names[j] != t.names[k] {
      DistinctImage(sys, t, h, j, k);
    }
  }

  lemma NamedImage(sys: System, t: State, h: seq<nat>, j: nat)
    requires Good(sys.start) && ObjectsAlone(sys, h) && Rewritten(sys.start, t, h) && j < t.n
    ensures t.names[j] == Base(j) || IsCell(t, j)
  {
    var st := sys.start;
    assert Hit(h, j);
    var v: nat :| v < |h| && h[v] == j;
    NameAt(sys, t, h, v);
    if st.names[v] != Base(v) {
      var o: nat, off: nat :| (o, off) in st.cells && st.cells[(o, off)] == v;
      assert (h[o], off) in t.cells && t.cells[(h[o], off)] == j;
    }
  }

  lemma DistinctImage(sys: System, t: State, h: seq<nat>, j: nat, k: nat)
    requires Good(sys.start) && ObjectsAlone(sys, h) && Rewritten(sys.start, t, h) && j < k < t.n
    ensures t.names[j] != t.names[k]
  {
    assert Hit(h, j) && Hit(h, k);
    var v: nat :| v < |h| && h[v] == j;
    var w: nat :| w < |h| && h[w] == k;
    NameAt(sys, t, h, v);
    NameAt(sys, t, h, w);
    RenamedDistinct(sys, t, h, v, w);
  }

  lemma RenamedDistinct(sys: System, t: State, h: seq<nat>, v: nat, w: nat)
    requires Good(sys.start) && ObjectsAlone(sys, h) && Rewritten(sys.start, t, h)
    requires v < |h| && w < |h| && h[v] != h[w]
    ensures Rho(h, sys.start.names[v]) != Rho(h, sys.start.names[w])
  {
    var nm := sys.start.names;
    DomName(sys, h, v);
    DomName(sys, h, w);
    if nm[v] != Base(v) {
      CellObj(sys, h, v);
      DistinctUnder(sys, h, w, v);
    } else if nm[w] != Base(w) {
      CellObj(sys, h, w);
      DistinctUnder(sys, h, v, w);
    }
  }

  lemma CellObj(sys: System, h: seq<nat>, v: nat)
    requires Good(sys.start) && ObjectsAlone(sys, h) && |h| == sys.start.n && v < |h| && sys.start.names[v] != Base(v)
    ensures Obj(h, sys.start.names[v])
  {
    var o: nat, off: nat :| (o, off) in sys.start.cells && sys.start.cells[(o, off)] == v;
    ObjName(sys, h, v);
  }

  lemma DistinctUnder(sys: System, h: seq<nat>, v: nat, w: nat)
    requires Good(sys.start) && |h| == sys.start.n && v < |h| && w < |h| && v != w
    requires Obj(h, sys.start.names[w]) && Dom(h, sys.start.names[v])
    ensures Rho(h, sys.start.names[v]) != Rho(h, sys.start.names[w])
  {
    var nm := sys.start.names;
    assert nm[v] != nm[w];
    if Rho(h, nm[v]) == Rho(h, nm[w]) {
      RhoInjective(h, nm[v], nm[w]);
    }
  }

  lemma ImageMarked(sys: System, t: State, h: seq<nat>)
    requires Good(sys.start) && ObjectsAlone(sys, h) && Rewritten(sys.start, t, h) && InBounds(t)
    ensures Marked(t)
  {
    var st := sys.start;
    assert Alone(h, TOP);
    forall j: nat | j in t.poisoned ensures j < t.n && j != TOP && TOP in t.pts[j] {
      var o: nat :| o in st.poisoned && h[o] == j;
      assert TOP in st.pts[o];
      assert Kept(h, t.pts, o, TOP);
    }
    forall a: nat, off: nat | (a, off) in t.cells && a in t.poisoned ensures TOP in t.pts[t.cells[(a, off)]] {
      var o := ImageCell(sys, t, h, a, off);
      var q: nat :| q in st.poisoned && h[q] == a;
      assert q == o;
      assert TOP in st.pts[st.cells[(o, off)]];
      assert Kept(h, t.pts, st.cells[(o, off)], TOP);
    }
  }

  lemma ImageGood(sys: System, t: State, h: seq<nat>)
    requires Good(sys.start) && ObjectsAlone(sys, h) && Rewritten(sys.start, t, h)
    ensures Good(t) && StateImage(h, sys.start, t)
  {
    hide *;
    ImageBounds(sys, t, h);
    ImageNamed(sys, t, h);
    ImageMarked(sys, t, h);
    GoodIntro(t);
    RewrittenSize(sys.start, t, h);
    forall x: nat | x < |h| ensures h[x] < |t.names| && t.names[h[x]] == Rho(h, sys.start.names[x]) {
      NameAt(sys, t, h, x);
    }
    StateImageIntro(sys.start, t, h);
  }

  lemma GoodIntro(st: State)
    requires InBounds(st) && Named(st) && Marked(st)
    ensures Good(st)
  {
  }

  lemma RewrittenSize(st: State, t: State, h: seq<nat>)
    requires Rewritten(st, t, h)
    ensures |h| == st.n == |st.names|
  {
  }

  lemma StateImageIntro(st: State, t: State, h: seq<nat>)
    requires Rewritten(st, t, h)
    requires |h| == |st.names| && forall x: nat :: x < |h| ==> h[x] < |t.names| && t.names[h[x]] == Rho(h, st.names[x])
    ensures StateImage(h, st, t)
  {
    hide Kept, FactFrom, SetFrom, CellsImage, NewNames, Hit, Rho;
    FactsFrom(st, t, h);
    PoisonKept(st, t, h);
    assert SetsUpTo(h, st.pts, |st.pts|, t.pts);
    hide Rewritten;
  }

  lemma PoisonKept(st: State, t: State, h: seq<nat>)
    requires Rewritten(st, t, h)
    ensures forall o: nat :: o in st.poisoned ==> o < |h| && h[o] in t.poisoned
    ensures forall j: nat :: j in t.poisoned ==> exists o: nat :: o in st.poisoned && o < |h| && h[o] == j
  {
    hide CellsImage, NewNames, SetsUpTo, Hit;
  }

  lemma FactsFrom(st: State, t: State, h: seq<nat>)
    requires Rewritten(st, t, h)
    ensures forall j: nat, c: nat :: j < |t.pts| && c in t.pts[j] ==> FactFrom(h, st, j, c)
  {
    assert SetsUpTo(h, st.pts, |st.pts|, t.pts);
    hide Rewritten;
    forall j: nat, c: nat | j < |t.pts| && c in t.pts[j] ensures FactFrom(h, st, j, c) {
      assert SetFrom(h, st.pts, |st.pts|, j, c);
    }
  }

  // ------------------------------------------------------------ the collapse

  /** Both directions of every pair of cells to be made equal. */
  method BothWays(equalize: seq<(nat, nat)>) returns (edges: seq<(nat, nat)>)
    ensures forall a: nat, b: nat :: (a, b) in edges <==> (a, b) in equalize || (b, a) in equalize
    ensures |edges| == 2 * |equalize|
  {
    edges := [];
    for i := 0 to |equalize|
      invariant |edges| == 2 * i
      invariant forall a: nat, b: nat :: (a, b) in edges <==> (a, b) in equalize[..i] || (b, a) in equalize[..i]
    {
      var (a, b) := equalize[i];
      edges := edges + [(a, b), (b, a)];
    }
  }

  /** The constraint lists rewritten, no cells having clashed. */
  ghost predicate ListsRewritten(s: System, t: System, h: seq<nat>) {
    && PairsImage(h, s.addr, t.addr) && PairsImage(h, s.loads, t.loads) && PairsImage(h, s.stores, t.stores)
    && GepsImage(h, s.geps, t.geps) && CopiesImage(h, s.copies, t.copies)
  }

  /** The rest of the whole-program tables. */
  class ProgramPointsTo {
    var pt: PointsTo.Solver
    var regNode: map<(nat, nat), nat>
    var globalObj: map<string, nat>
    var objGlobal: Names

    ghost predicate Valid()
      reads this, pt
    {
      && Good(pt.View()) && Scoped(pt.Rules(pt.View()), pt.n) && pt.saturated == {}
      && (forall k :: k in regNode ==> regNode[k] < pt.n)
      && (forall k :: k in globalObj ==> globalObj[k] < pt.n)
      && (forall x: nat :: x in objGlobal ==> x < pt.n)
    }

    /** An empty relation: TOP alone. */
    constructor ()
      ensures Valid() && fresh(pt) && pt.n == 1
    {
      pt := new PointsTo.Solver();
      regNode, globalObj, objGlobal := map[], map[], map[];
    }

    /** The relation a builder has collected. */
    constructor Of(solver: PointsTo.Solver, regs: map<(nat, nat), nat>, globals: map<string, nat>, objects: Names)
      requires Good(solver.View()) && Scoped(solver.Rules(solver.View()), solver.n) && solver.saturated == {}
      requires forall k :: k in regs ==> regs[k] < solver.n
      requires forall k :: k in globals ==> globals[k] < solver.n
      requires forall x: nat :: x in objects ==> x < solver.n
      ensures Valid() && pt == solver && regNode == regs && globalObj == globals && objGlobal == objects
    {
      pt, regNode, globalObj, objGlobal := solver, regs, globals, objects;
    }

    ghost function System(): System
      reads this, pt
    {
      pt.Rules(pt.View())
    }

    /** Rewrite the solver's tables with the new numbers. */
    method RewriteSolver(id: seq<nat>, nnew: nat, ghost comp: seq<nat>)
      requires Valid() && IsRenumbering(comp, id, nnew) && |id| == pt.n
      modifies pt
      ensures pt.n == nnew && (NoClash(old(System()), id) ==> ListsRewritten(old(System()), System(), id))
      ensures CellsAlone(id, old(pt.fieldCell)) ==> Rewritten(old(pt.View()), pt.View(), id)
    {
      ghost var sys := System();
      RenumberingFacts(comp, id, nnew);
      ValidFacts(sys, pt.n);
      hide Good, Scoped, IsRenumbering, ListsRewritten, InScope, CellsAlone, Rewritten, NoClash, ListsFrom, NewNames,
        Hit;
      var newPts, newCells, newPoisoned, newSaturated, eqEdges :=
        RewriteState(id, nnew, pt.pts, pt.fieldCell, pt.poisoned, pt.saturated, pt.names);
      var newAddr, newCopies, newGeps, newLoads, newStores :=
        RewriteLists(id, pt.addr, pt.copies, pt.geps, pt.loads, pt.stores, eqEdges);
      pt.Replace(nnew, newPts, newCells, newPoisoned, newSaturated, NewNames(id, pt.names, nnew),
                 newAddr, newCopies, newGeps, newLoads, newStores);
      SolverRewritten(sys, System(), id, eqEdges);
    }

    /**
     Collapse the copy cycles. Nodes get one number exactly when they copy into
     each other; every table is rewritten with the new numbers. When objects and
     cells lie on no cycle, the merged system has the same answers.
     */
    method CollapseCopyCycles() returns (ghost h: seq<nat>, ghost g: G.Graph)
      requires Valid()
      modifies this, pt
      ensures pt == old(pt) && MergesExactly(old(System()), h, g) && pt.n <= old(pt.n)
      ensures regNode.Keys == old(regNode).Keys
      ensures forall k :: k in regNode ==> RenamedTo(h, old(regNode)[k], regNode[k])
      ensures globalObj.Keys == old(globalObj).Keys
      ensures forall k :: k in globalObj ==> RenamedTo(h, old(globalObj)[k], globalObj[k])
      ensures forall k: nat :: k in objGlobal ==> OnlyName(h, old(objGlobal), k, objGlobal[k])
      ensures forall k: nat, nm: string :: OnlyName(h, old(objGlobal), k, nm) ==> k in objGlobal
      ensures NoAnyOffset(old(System())) && ObjectsAlone(old(System()), h) ==> Setting(old(System()), System(), h)
      ensures ObjectsAlone(old(System()), h) ==> Good(pt.View()) && Scoped(System(), pt.n)
    {
      ghost var sys := System();
      ValidFacts(sys, pt.n);
      hide Good, Scoped, MergesExactly, ObjectsAlone, Setting, NoAnyOffset, OnlyName, IsRenumbering, ListsRewritten,
        Rewritten,
        NoClash, CellsAlone, RenamedTo, Identity;
      var r, nnew;
      ghost var comp;
      r, nnew, comp, g := FindRenumbering(pt.n, pt.copies, sys);
      if r.None? {
        h := Identity(pt.n);
        IdentityAt(pt.n);
        IdentityKeeps(sys, h, g);
        IdentityNames(h, objGlobal);
        return;
      }
      h := r.value;
      RewriteSolver(r.value, nnew, comp);
      SettingIntro(sys, System(), h);
      RenumberingFacts(comp, h, nnew);
      RenameTables(r.value);
    }

    /**
     Collapse, then solve unless there are too many nodes left. Every register
     gets the single target it would have had without the collapse.
     */
    method CollapseAndSolve() returns (ghost h: seq<nat>)
      requires Valid() && ObjectsOffCycles(System())
      modifies this, pt
      ensures pt == old(pt) && Good(pt.View())
      ensures regNode.Keys == old(regNode).Keys
      ensures forall k :: k in regNode ==> RenamedTo(h, old(regNode)[k], regNode[k])
      ensures forall k: nat :: k in objGlobal ==> OnlyName(h, old(objGlobal), k, objGlobal[k])
      ensures NoAnyOffset(old(System())) && Exact(pt.View()) ==> SolvesBoth(old(System()), pt.View(), h)
      ensures NoAnyOffset(old(System())) && Exact(pt.View()) ==>
                AnswersSurvive(old(System()), pt.View(), h, old(regNode), regNode)
    {
      ghost var sys, regs := System(), regNode;
      hide Good, Scoped, MergesExactly, ObjectsAlone, Setting, NoAnyOffset, OnlyName, RenamedTo, AnswersSurvive, Final,
        Later, Solved,
        SolvedBesidesPoison, ObjectsOffCycles, SolvesBoth;
      ghost var g;
      h, g := CollapseCopyCycles();
      OffCycles(sys, h, g);
      if pt.n >= MAX_NODES {
        return;
      }
      ghost var sys' := System();
      pt.Solve();
      if NoAnyOffset(sys) && Exact(pt.View()) {
        QuotientPlain(sys, sys', h);
        SurviveAll(sys, sys', h, g, pt.View(), regs, regNode);
        BothSolved(sys, sys', h, g, pt.View());
      }
    }

    /** Translate the tables that mention nodes. */
    method RenameTables(id: seq<nat>)
      requires forall k :: k in regNode ==> regNode[k] < |id|
      requires forall k :: k in globalObj ==> globalObj[k] < |id|
      requires forall x: nat :: x in objGlobal ==> x < |id|
      modifies `regNode, `globalObj, `objGlobal
      ensures regNode.Keys == old(regNode).Keys
      ensures forall k :: k in regNode ==> RenamedTo(id, old(regNode)[k], regNode[k])
      ensures globalObj.Keys == old(globalObj).Keys
      ensures forall k :: k in globalObj ==> RenamedTo(id, old(globalObj)[k], globalObj[k])
      ensures forall k: nat :: k in objGlobal ==> OnlyName(id, old(objGlobal), k, objGlobal[k])
      ensures forall k: nat, nm: string :: OnlyName(id, old(objGlobal), k, nm) ==> k in objGlobal
    {
      hide OnlyName;
      regNode := map k | k in regNode :: id[regNode[k]];
      globalObj := map k | k in globalObj :: id[globalObj[k]];
      objGlobal := RebuildNames(id, objGlobal);
    }
  }

  /** Address-of targets, poisoned objects, field cells, their owners and TOP copy into no other node and back. */
  ghost predicate ObjectsOffCycles(sys: System) {
    forall h: seq<nat>, g: G.Graph :: MergesExactly(sys, h, g) ==> ObjectsAlone(sys, h)
  }

  lemma OffCycles(sys: System, h: seq<nat>, g: G.Graph)
    requires ObjectsOffCycles(sys) && MergesExactly(sys, h, g)
    ensures ObjectsAlone(sys, h)
  {
    hide MergesExactly, ObjectsAlone;
  }

  /** Node `x` has a single target in `st` just when its image `y` has one in `st'`, which is that target's image. */
  ghost predicate SameAnswer(h: seq<nat>, st: State, st': State, x: nat, y: nat) {
    && x < |st.pts| && y < |st'.pts|
    && ((exists o: nat :: st.pts[x] == {o}) <==> (exists o': nat :: st'.pts[y] == {o'}))
    && (forall o: nat :: st.pts[x] == {o} ==>
          exists o': nat :: st'.pts[y] == {o'} && o < |st.names| && o' < |st'.names| &&
              st'.names[o'] == Rho(h, st.names[o]))
  }

  /** Whatever solving without the collapse gives, every register has the same answer. */
  ghost predicate AnswersSurvive(sys: System, st': State, h: seq<nat>, regs: map<(nat, nat), nat>,
                                 regs': map<(nat, nat), nat>) {
    forall st: State :: Final(sys, st) ==>
      regs.Keys == regs'.Keys && forall k :: k in regs ==> SameAnswer(h, st, st', regs[k], regs'[k])
  }

  /** The nodes go over with their names, and only nodes that copy into each other become one. */
  ghost predicate NamesFollow(sys: System, st': State, h: seq<nat>) {
    && |h| == sys.start.n == |sys.start.names| && (exists g: G.Graph :: MergesExactly(sys, h, g))
    && forall x: nat :: x < |h| ==>
         h[x] < |h| && h[x] < |st'.names| && st'.names[h[x]] == Rho(h, sys.start.names[x])
  }

  /** What was found on the merged nodes is a solution of the system before merging, too. */
  ghost predicate SolvesBoth(sys: System, st': State, h: seq<nat>) {
    && Scoped(sys, sys.start.n) && Good(sys.start) && Good(st') && NamesFollow(sys, st', h)
    && Closed(sys, PullBack(h, Meaning(st')))
  }

  lemma BothSolved(sys: System, sys': System, h: seq<nat>, g: G.Graph, st': State)
    requires Setting(sys, sys', h) && MergesExactly(sys, h, g) && Final(sys', st') && sys'.start.n <= sys.start.n
    ensures SolvesBoth(sys, st', h)
  {
    SettingGood(sys, sys', h);
    FinalGood(sys', st');
    LeastSolution(sys', st', Meaning(st'));
    PullCloses(sys, sys', h, Meaning(st'));
    hide Setting, Final, MergesExactly, Closed, Scoped, Good, PullBack, Meaning, Rho;
    forall x: nat | x < |h|
      ensures h[x] < |h| && h[x] < |st'.names| && st'.names[h[x]] == Rho(h, sys.start.names[x])
    {
      NameMap(sys, sys', h, x);
    }
    MergesSize(sys, h, g);
  }

  lemma MergesSize(sys: System, h: seq<nat>, g: G.Graph)
    requires MergesExactly(sys, h, g)
    ensures |h| == sys.start.n
  {
  }

  lemma SettingGood(sys: System, sys': System, h: seq<nat>)
    requires Setting(sys, sys', h)
    ensures Scoped(sys, sys.start.n) && Good(sys.start) && |sys.start.names| == sys.start.n
    ensures Scoped(sys', sys'.start.n) && Good(sys'.start) && |h| == sys.start.n
  {
    hide Named, Marked, Scoped, ObjectsAlone, PairsImage, CopiesImage, GepsImage;
  }

  lemma FinalGood(sys: System, st: State)
    requires Final(sys, st)
    ensures Good(st) && sys.start.names <= st.names
  {
    hide Solved, Derived, Named, Marked, Scoped;
  }

  lemma QuotientPlain(sys: System, sys': System, h: seq<nat>)
    requires Setting(sys, sys', h)
    ensures NoAnyOffset(sys')
  {
    hide Good, Scoped, ObjectsAlone, PairsImage, CopiesImage, StateImage;
    forall d: nat, s: nat, off: nat | (d, s, off) in sys'.geps ensures off != ANY_OFFSET {
      assert GepFrom(h, sys.geps, d, s, off);
    }
  }

  lemma AnswerSurvives(sys: System, sys': System, h: seq<nat>, st: State, st': State, x: nat)
    requires Merged(sys, sys', h, st, st') && x < sys.start.n
    ensures x < |h| && SameAnswer(h, st, st', x, h[x])
  {
    hide *;
    SingletonsSurvive(sys, sys', h, st, st', x);
    MergedFinal(sys, sys', h, st, st');
    FinalSize(sys, st);
    FinalSize(sys', st');
    SameAnswerIntro(h, st, st', x, h[x]);
  }

  lemma SameAnswerIntro(h: seq<nat>, st: State, st': State, x: nat, y: nat)
    requires x < |st.pts| && y < |st'.pts| && |st.names| == st.n && |st'.names| == st'.n
    requires (exists o: nat :: st.pts[x] == {o}) <==> (exists o': nat :: st'.pts[y] == {o'})
    requires forall o: nat :: st.pts[x] == {o} ==>
               exists o': nat :: st'.pts[y] == {o'} && o < st.n && o' < st'.n && st'.names[o'] == Rho(h, st.names[o])
    ensures SameAnswer(h, st, st', x, y)
  {
    hide Rho;
  }

  lemma MergedFinal(sys: System, sys': System, h: seq<nat>, st: State, st': State)
    requires Merged(sys, sys', h, st, st')
    ensures Final(sys, st) && Final(sys', st')
  {
    hide Final, Setting, MergesCycles;
  }

  lemma FinalSize(sys: System, st: State)
    requires Final(sys, st)
    ensures |st.names| == st.n
  {
    hide Solved, Derived, Named, Marked, Scoped;
  }

  lemma SurviveAll(sys: System, sys': System, h: seq<nat>, g: G.Graph, st': State,
                   regs: map<(nat, nat), nat>, regs': map<(nat, nat), nat>)
    requires Setting(sys, sys', h) && MergesExactly(sys, h, g) && Final(sys', st')
    requires regs.Keys == regs'.Keys
    requires forall k :: k in regs ==> regs[k] < sys.start.n && RenamedTo(h, regs[k], regs'[k])
    ensures AnswersSurvive(sys, st', h, regs, regs')
  {
    MergesExactlyCycles(sys, h, g);
    hide Setting, MergesExactly, Final, MergesCycles, SameAnswer;
    forall st: State | Final(sys, st)
      ensures regs.Keys == regs'.Keys && forall k :: k in regs ==> SameAnswer(h, st, st', regs[k], regs'[k])
    {
      forall k | k in regs ensures SameAnswer(h, st, st', regs[k], regs'[k]) {
        AnswerSurvives(sys, sys', h, st, st', regs[k]);
      }
    }
  }

  /** The renumbering by copy components, or nothing when every component is a single node. */
  method FindRenumbering(n: nat, copies: seq<(nat, nat)>, ghost sys: System)
    returns (r: Option<seq<nat>>, nnew: nat, ghost comp: seq<nat>, ghost g: G.Graph)
    requires Good(sys.start) && Scoped(sys, n) && sys.start.n == n && copies == sys.copies
    ensures r.None? ==> MergesExactly(sys, Identity(n), g)
    ensures r.Some? ==> IsRenumbering(comp, r.value, nnew) && MergesExactly(sys, r.value, g) && |r.value| == n
  {
    ValidFacts(sys, n);
    hide Good, Scoped, MergesExactly, IsRenumbering, Adjacent, Identity, Outgoing, Tarjan.AreComponents,
      Tarjan.WellFormed;
    r, nnew, comp := None, n, [];
    if n <= 1 {
      g := G.Graph([Outgoing(copies, 0)], []);
      SmallGraph(sys, g);
      return;
    }
    var adj := CopyGraph(n, copies);
    g := G.Graph(adj, []);
    GraphFacts(sys, adj);
    var c, ncomp := Tarjan.Components(G.Graph(adj, []));
    comp := c;
    ComponentFacts(g, comp, ncomp);
    r, nnew := Renumber(c, ncomp);
    if r.None? {
      NothingMerged(sys, Identity(n), g, comp, ncomp);
    } else {
      MergedExactly(sys, r.value, g, comp, ncomp, nnew);
      RenumberingFacts(comp, r.value, nnew);
    }
  }

  ghost predicate RenamedTo(h: seq<nat>, x: nat, y: nat) {
    x < |h| && h[x] == y
  }

  ghost function Identity(n: nat): seq<nat> {
    seq(n, i requires 0 <= i < n => i)
  }

  function Outgoing(copies: seq<(nat, nat)>, s: nat): seq<nat> {
    if copies == [] then []
    else Outgoing(copies[..|copies| - 1], s) +
         (if copies[|copies| - 1].1 == s then [copies[|copies| - 1].0] else [])
  }

  lemma {:induction false} OutgoingHas(copies: seq<(nat, nat)>, s: nat)
    ensures forall d: nat :: d in Outgoing(copies, s) <==> (d, s) in copies
  {
    if copies != [] {
      var last := copies[|copies| - 1];
      OutgoingHas(copies[..|copies| - 1], s);
      assert copies == copies[..|copies| - 1] + [last];
    }
  }

  /** Field cells of distinct objects stay distinct. */
  ghost predicate NoClash(sys: System, h: seq<nat>) {
    CellsAlone(h, sys.start.cells)
  }

  lemma RenumberingFacts(comp: seq<nat>, h: seq<nat>, nnew: nat)
    requires IsRenumbering(comp, h, nnew)
    ensures |h| == |comp| && 0 < nnew <= |h| && h[TOP] == TOP && (forall u: nat :: u < |h| ==> h[u] < nnew)
    ensures forall j: nat :: j < nnew ==> Hit(h, j)
  {
  }

  lemma ValidFacts(sys: System, n: nat)
    requires Good(sys.start) && sys.start.n == n && Scoped(sys, n)
    ensures |sys.start.pts| == |sys.start.names| == n > 0
    ensures forall v: nat, o: nat :: v < n && o in sys.start.pts[v] ==> o < n
    ensures forall o: nat :: o in sys.start.poisoned ==> o < n
    ensures forall o: nat, off: nat :: (o, off) in sys.start.cells ==> o < n && sys.start.cells[(o, off)] < n
    ensures forall d: nat, s: nat :: (d, s) in sys.copies ==> d < n && s < n
    ensures forall a: nat, b: nat, off: nat :: (a, b, off) in sys.geps ==> a < n && b < n
    ensures forall h: seq<nat> :: |h| == n ==>
              InScope(h, sys.addr) && InScope(h, sys.copies) && InScope(h, sys.loads) && InScope(h, sys.stores)
  {
    hide Named;
  }

  /** The five lists before and after; `edges` makes clashing cells equal. */
  ghost predicate ListsFrom(s: System, t: System, h: seq<nat>, edges: seq<(nat, nat)>) {
    && PairsImage(h, s.addr, t.addr) && PairsImage(h, s.loads, t.loads) && PairsImage(h, s.stores, t.stores)
    && GepsImage(h, s.geps, t.geps) && Carried(h, s.copies, t.copies, true)
    && (forall a: nat, b: nat :: (a, b) in t.copies ==> PairFrom(h, s.copies, a, b) || (a, b) in edges)
    && (forall a: nat, b: nat :: (a, b) in edges ==> (a, b) in t.copies || a == b)
  }

  lemma PairsIntro(h: seq<nat>, src: seq<(nat, nat)>, out: seq<(nat, nat)>)
    requires Carried(h, src, out, false)
    requires forall a: nat, b: nat :: (a, b) in out ==> PairFrom(h, src, a, b) || (a, b) in []
    ensures PairsImage(h, src, out)
  {
    hide PairFrom;
  }

  method RewriteLists(h: seq<nat>, addr: seq<(nat, nat)>, copies: seq<(nat, nat)>, geps: seq<(nat, nat, nat)>,
                      loads: seq<(nat, nat)>, stores: seq<(nat, nat)>, edges: seq<(nat, nat)>)
    returns (newAddr: seq<(nat, nat)>, newCopies: seq<(nat, nat)>, newGeps: seq<(nat, nat, nat)>,
             newLoads: seq<(nat, nat)>, newStores: seq<(nat, nat)>)
    requires InScope(h, addr) && InScope(h, copies) && InScope(h, loads) && InScope(h, stores)
    requires forall a: nat, b: nat, off: nat :: (a, b, off) in geps ==> a < |h| && b < |h|
    ensures forall s: State, t: State ::
              ListsFrom(System(addr, copies, geps, loads, stores, s),
                        System(newAddr, newCopies, newGeps, newLoads, newStores, t), h, edges)
  {
    hide InScope, Carried, PairsImage, PairFrom, GepsImage;
    newAddr := DedupPairs(h, addr, false, []);
    PairsIntro(h, addr, newAddr);
    newCopies := DedupPairs(h, copies, true, edges);
    newLoads := DedupPairs(h, loads, false, []);
    PairsIntro(h, loads, newLoads);
    newStores := DedupPairs(h, stores, false, []);
    PairsIntro(h, stores, newStores);
    newGeps := DedupGeps(h, geps);
  }

  method RewriteState(h: seq<nat>, nnew: nat, pts: seq<set<nat>>, cells: Cells, poisoned: set<nat>, saturated: set<nat>,
                      ghost names: seq<Loc>)
    returns (newPts: seq<set<nat>>, newCells: Cells, newPoisoned: set<nat>, newSaturated: set<nat>,
             edges: seq<(nat, nat)>)
    requires |h| == |pts| == |names| && 0 < nnew <= |h| && h[TOP] == TOP && saturated == {}
    requires (forall v: nat :: v < |h| ==> h[v] < nnew) && (forall j: nat :: j < nnew ==> Hit(h, j))
    requires forall v: nat, o: nat :: v < |pts| && o in pts[v] ==> o < |h|
    requires forall o: nat :: o in poisoned ==> o < |h|
    requires forall o: nat, off: nat :: (o, off) in cells ==> o < |h| && cells[(o, off)] < |h|
    ensures CellsAlone(h, cells) ==> edges == []
    ensures CellsAlone(h, cells) ==>
              Rewritten(State(|h|, pts, cells, poisoned, saturated, names),
                        State(nnew, newPts, newCells, newPoisoned, newSaturated, NewNames(h, names, nnew)), h)
  {
    hide CellsAlone, CellsImage, CellFrom, SetsUpTo, Hit, NewNames, Rewritten;
    newPts := RebuildSets(h, pts, nnew);
    newPoisoned, newSaturated := Image(h, poisoned), Image(h, saturated);
    var equalize;
    newCells, equalize := RebuildCells(h, cells);
    edges := BothWays(equalize);
    assert newSaturated == {};
    RewrittenIntro(State(|h|, pts, cells, poisoned, saturated, names), h, nnew, newPts, newCells, newPoisoned,
                   newSaturated);
  }

  lemma SolverRewritten(s: System, t: System, h: seq<nat>, edges: seq<(nat, nat)>)
    requires ListsFrom(s, t, h, edges) && (CellsAlone(h, s.start.cells) ==> edges == [])
    ensures NoClash(s, h) ==> ListsRewritten(s, t, h)
  {
    hide CellsAlone, PairsImage, GepsImage, PairFrom;
  }

  lemma RewrittenIntro(st: State, h: seq<nat>, nnew: nat, pts: seq<set<nat>>, cells: Cells, poisoned: set<nat>,
                       saturated: set<nat>)
    requires |h| == |st.pts| == |st.names| == st.n && |pts| == nnew && 0 < nnew <= st.n && h[TOP] == TOP
    requires (forall v: nat :: v < |h| ==> h[v] < nnew) && (forall j: nat :: j < nnew ==> Hit(h, j))
    requires SetsUpTo(h, st.pts, |st.pts|, pts)
    requires CellsAlone(h, st.cells) ==> CellsImage(h, st.cells, cells)
    requires forall x: nat :: x in st.poisoned ==> x < |h| && h[x] in poisoned
    requires forall j: nat :: j in poisoned ==> exists x: nat :: x in st.poisoned && h[x] == j
    requires saturated == {}
    ensures CellsAlone(h, st.cells) ==>
              Rewritten(st, State(nnew, pts, cells, poisoned, saturated, NewNames(h, st.names, nnew)), h)
  {
    hide SetsUpTo, CellsImage, CellsAlone, NewNames, Hit;
  }

  /** Merging with the identity changes nothing. */
  lemma {:induction false} RhoIdentity(n: nat, l: Loc)
    ensures Rho(Identity(n), l) == l
  {
    match l
    case Base(_) =>
    case Field(o, _) => RhoIdentity(n, o);
  }

  lemma IdentityImage(n: nat, src: seq<(nat, nat)>)
    requires forall a: nat, b: nat :: (a, b) in src ==> a < n && b < n
    ensures PairsImage(Identity(n), src, src) && CopiesImage(Identity(n), src, src)
  {
    forall a: nat, b: nat | (a, b) in src ensures PairFrom(Identity(n), src, a, b) {
    }
  }

  lemma IdentityState(st: State)
    requires Good(st)
    ensures StateImage(Identity(st.n), st, st)
  {
    var h := Identity(st.n);
    forall x: nat | x < st.n ensures st.names[h[x]] == Rho(h, st.names[x]) {
      RhoIdentity(st.n, st.names[x]);
    }
    forall j: nat, c: nat | j < st.n && c in st.pts[j] ensures FactFrom(h, st, j, c) && Kept(h, st.pts, j, c) {
      assert h[j] == j && h[c] == c;
    }
    hide Named;
    forall j: nat | j in st.poisoned ensures j < |h| && h[j] == j {
    }
  }

  lemma IdentityKeeps(sys: System, h: seq<nat>, g: G.Graph)
    requires Good(sys.start) && Scoped(sys, sys.start.n) && h == Identity(sys.start.n)
    ensures NoAnyOffset(sys) && ObjectsAlone(sys, h) ==> Setting(sys, sys, h)
    ensures forall x: nat :: x < sys.start.n ==> RenamedTo(h, x, x)
  {
    hide *;
    IdentityLists(sys, h);
    IdentityState(sys.start);
    IdentityAt(sys.start.n);
    QuotientIntro(sys, sys, h);
    SettingFrom(sys, sys, h);
  }

  lemma IdentityAt(n: nat)
    ensures |Identity(n)| == n && forall x: nat :: x < n ==> Identity(n)[x] == x && RenamedTo(Identity(n), x, x)
  {
  }

  lemma QuotientIntro(sys: System, sys': System, h: seq<nat>)
    requires |h| == sys.start.n && (forall x: nat :: x < |h| ==> h[x] < |h|) && (|h| > TOP ==> h[TOP] == TOP)
    requires PairsImage(h, sys.addr, sys'.addr) && CopiesImage(h, sys.copies, sys'.copies)
    requires GepsImage(h, sys.geps, sys'.geps)
    requires PairsImage(h, sys.loads, sys'.loads) && PairsImage(h, sys.stores, sys'.stores)
    requires StateImage(h, sys.start, sys'.start)
    ensures IsQuotient(sys, sys', h)
  {
    hide PairsImage, CopiesImage, GepsImage, StateImage;
  }

  lemma SettingFrom(sys: System, sys': System, h: seq<nat>)
    requires Good(sys.start) && Scoped(sys, sys.start.n) && Good(sys'.start) && Scoped(sys', sys'.start.n)
    requires IsQuotient(sys, sys', h)
    ensures NoAnyOffset(sys) && ObjectsAlone(sys, h) ==> Setting(sys, sys', h)
  {
    hide Good, Scoped, IsQuotient, NoAnyOffset, ObjectsAlone;
  }

  lemma IdentityGeps(n: nat, src: seq<(nat, nat, nat)>)
    requires forall a: nat, b: nat, off: nat :: (a, b, off) in src ==> a < n && b < n
    ensures GepsImage(Identity(n), src, src)
  {
    var h := Identity(n);
    forall a: nat, b: nat, off: nat | (a, b, off) in src
      ensures a < |h| && b < |h| && h[a] == a && h[b] == b && GepFrom(h, src, a, b, off)
    {
      assert h[a] == a && h[b] == b;
    }
    hide Identity, GepFrom;
  }

  lemma IdentityLists(sys: System, h: seq<nat>)
    requires Scoped(sys, sys.start.n) && h == Identity(sys.start.n)
    ensures PairsImage(h, sys.addr, sys.addr) && CopiesImage(h, sys.copies, sys.copies)
    ensures GepsImage(h, sys.geps, sys.geps)
    ensures PairsImage(h, sys.loads, sys.loads) && PairsImage(h, sys.stores, sys.stores)
  {
    hide PairsImage, CopiesImage, GepsImage, Identity;
    var n := sys.start.n;
    IdentityGeps(n, sys.geps);
    IdentityImage(n, sys.addr);
    IdentityImage(n, sys.copies);
    IdentityImage(n, sys.loads);
    IdentityImage(n, sys.stores);
  }

  lemma IdentityNames(h: seq<nat>, names: Names)
    requires forall x: nat :: x in names ==> x < |h|
    requires h == Identity(|h|)
    ensures forall k: nat :: k in names ==> OnlyName(h, names, k, names[k])
    ensures forall k: nat, nm: string :: OnlyName(h, names, k, nm) ==> k in names
  {
    forall k: nat | k in names ensures OnlyName(h, names, k, names[k]) {
      assert h[k] == k;
    }
  }

  lemma SmallGraph(sys: System, g: G.Graph)
    requires Scoped(sys, sys.start.n) && sys.start.n == 1
    requires g == G.Graph([Outgoing(sys.copies, 0)], [])
    ensures MergesExactly(sys, Identity(1), g)
  {
    OutgoingHas(sys.copies, 0);
    G.ReachRefl(g, 0);
    forall s: nat, d: nat ensures g.Edge(s, d) <==> (d, s) in sys.copies {
    }
  }

  lemma GraphFacts(sys: System, adj: seq<seq<nat>>)
    requires Scoped(sys, sys.start.n) && |adj| == sys.start.n && Adjacent(adj, sys.copies)
    ensures Tarjan.WellFormed(G.Graph(adj, [])) && G.Graph(adj, []).N() == sys.start.n
    ensures forall s: nat, d: nat :: G.Graph(adj, []).Edge(s, d) <==> (d, s) in sys.copies
  {
    forall i: nat, k: nat | i < |adj| && k < |adj[i]| ensures adj[i][k] < |adj| {
      assert adj[i][k] in adj[i];
    }
  }

  lemma ComponentFacts(g: G.Graph, comp: seq<nat>, ncomp: nat)
    requires Tarjan.AreComponents(g, comp, ncomp)
    ensures |comp| == g.N() && forall v: nat :: v < |comp| ==> comp[v] < ncomp
  {
  }

  lemma NothingMerged(sys: System, h: seq<nat>, g: G.Graph, comp: seq<nat>, ncomp: nat)
    requires Tarjan.AreComponents(g, comp, ncomp) && g.N() == sys.start.n && h == Identity(sys.start.n)
    requires forall s: nat, d: nat :: g.Edge(s, d) <==> (d, s) in sys.copies
    requires forall u: nat, v: nat :: u < |comp| && v < |comp| && comp[u] == comp[v] ==> u == v
    ensures MergesExactly(sys, h, g)
  {
    hide G.Reachable;
  }

  lemma MergedExactly(sys: System, h: seq<nat>, g: G.Graph, comp: seq<nat>, ncomp: nat, nnew: nat)
    requires Tarjan.AreComponents(g, comp, ncomp) && g.N() == sys.start.n && IsRenumbering(comp, h, nnew)
    requires forall s: nat, d: nat :: g.Edge(s, d) <==> (d, s) in sys.copies
    ensures MergesExactly(sys, h, g)
  {
    hide G.Reachable, Hit;
  }

  /** The rewritten system is the quotient by `h`, well formed and in scope. */
  lemma SettingIntro(sys: System, sys': System, h: seq<nat>)
    requires Good(sys.start) && Scoped(sys, sys.start.n) && |h| == sys.start.n
    requires NoClash(sys, h) ==> ListsRewritten(sys, sys', h)
    requires CellsAlone(h, sys.start.cells) ==> Rewritten(sys.start, sys'.start, h)
    ensures NoAnyOffset(sys) && ObjectsAlone(sys, h) ==> Setting(sys, sys', h)
    ensures ObjectsAlone(sys, h) ==> Good(sys'.start) && Scoped(sys', sys'.start.n)
  {
    if ObjectsAlone(sys, h) {
      assert CellsAlone(h, sys.start.cells);
      ImageGood(sys, sys'.start, h);
      ScopedImage(sys, sys', h);
    }
    if NoAnyOffset(sys) && ObjectsAlone(sys, h) {
      RewrittenBounds(sys.start, sys'.start, h);
      hide Good, Scoped, NoAnyOffset, ObjectsAlone, PairsImage, CopiesImage, GepsImage, StateImage, Rewritten;
      QuotientIntro(sys, sys', h);
    }
  }

  lemma RewrittenBounds(st: State, t: State, h: seq<nat>)
    requires Rewritten(st, t, h)
    ensures |h| == st.n && h[TOP] == TOP && forall x: nat :: x < |h| ==> h[x] < |h|
  {
    hide CellsImage, NewNames, SetsUpTo, Hit;
  }

  lemma ScopedImage(sys: System, sys': System, h: seq<nat>)
    requires Rewritten(sys.start, sys'.start, h) && ListsRewritten(sys, sys', h)
    ensures Scoped(sys', sys'.start.n)
  {
    hide CellsImage, NewNames, SetsUpTo, Hit;
    forall a: nat, b: nat, off: nat | (a, b, off) in sys'.geps ensures a < sys'.start.n && b < sys'.start.n {
      assert GepFrom(h, sys.geps, a, b, off);
    }
  }
}
