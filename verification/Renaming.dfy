/**
 Two builders that hold the same relation hold the same tables but for the
 numbers of nodes: one renaming carries everything over
 (crates/absint/src/pointsto.rs:674-775).
 */
module Renaming {
  import opened PointsToRules
  import opened Shards
  import opened Numbering
  import Building

  type Rename = map<nat, nat>

  function At(rho: Rename, x: nat): nat {
    if x in rho then rho[x] else TOP
  }

  function PairsThrough(rho: Rename, l: seq<(nat, nat)>): seq<(nat, nat)> {
    seq(|l|, i requires 0 <= i < |l| => (At(rho, l[i].0), At(rho, l[i].1)))
  }

  function TriplesThrough(rho: Rename, l: seq<(nat, nat, nat)>): seq<(nat, nat, nat)> {
    seq(|l|, i requires 0 <= i < |l| => (At(rho, l[i].0), At(rho, l[i].1), l[i].2))
  }

  ghost predicate PairsNamed(rho: Rename, l: seq<(nat, nat)>) {
    forall i :: 0 <= i < |l| ==> l[i].0 in rho && l[i].1 in rho
  }

  ghost predicate TriplesNamed(rho: Rename, l: seq<(nat, nat, nat)>) {
    forall i :: 0 <= i < |l| ==> l[i].0 in rho && l[i].1 in rho
  }

  /** The five lists of `t` are those of `s`, place by place. */
  ghost predicate ListsRenamed(rho: Rename, s: Lists<nat>, t: Lists<nat>) {
    && PairsNamed(rho, s.addr) && t.addr == PairsThrough(rho, s.addr)
    && PairsNamed(rho, s.copies) && t.copies == PairsThrough(rho, s.copies)
    && TriplesNamed(rho, s.geps) && t.geps == TriplesThrough(rho, s.geps)
    && PairsNamed(rho, s.loads) && t.loads == PairsThrough(rho, s.loads)
    && PairsNamed(rho, s.stores) && t.stores == PairsThrough(rho, s.stores)
  }

  /** A field cell that has a counterpart is the same field of the counterpart of its object. */
  ghost predicate CellsRenamed(rho: Rename, s: State, t: State) {
    forall o: nat, off: nat :: (o, off) in s.cells && s.cells[(o, off)] in rho ==>
      o in rho && (rho[o], off) in t.cells && t.cells[(rho[o], off)] == rho[s.cells[(o, off)]]
  }

  ghost predicate TablesRenamed(rho: Rename, s: Tie, t: Tie) {
    && (forall k :: k in s.regs && k in t.regs ==> s.regs[k] in rho && rho[s.regs[k]] == t.regs[k])
    && (forall k :: k in s.globals && k in t.globals ==> s.globals[k] in rho && rho[s.globals[k]] == t.globals[k])
  }

  /** `rho` carries the tables of `s` over to those of `t`, all nodes that constraints or poison mention included. */
  ghost predicate Renames(rho: Rename, s: Snap, t: Snap) {
    && TOP in rho && rho[TOP] == TOP
    && (forall x: nat, y: nat :: x in rho && y in rho && rho[x] == rho[y] ==> x == y)
    && ListsRenamed(rho, s.raw, t.raw) && CellsRenamed(rho, s.tie.st, t.tie.st) && TablesRenamed(rho, s.tie, t.tie)
    && (forall x: nat :: x in s.tie.st.poisoned ==> x in rho && rho[x] in t.tie.st.poisoned)
  }

  // ------------------------------------------------------------ nodes that stand for the same

  ghost predicate Twins(d: seq<Desc>, e: seq<Desc>, x: nat, y: nat) {
    x < |d| && y < |e| && d[x] == e[y]
  }

  /** The renaming goes from a node to the node that stands for the same. */
  ghost predicate Matches(rho: Rename, d: seq<Desc>, e: seq<Desc>) {
    forall x: nat, y: nat :: Twins(d, e, x, y) <==> x in rho && rho[x] == y
  }

  lemma {:induction false} MatchingFrom(d: seq<Desc>, e: seq<Desc>, n: nat) returns (rho: Rename)
    requires Distinct(e) && n <= |d|
    ensures forall x: nat, y: nat :: x < n && Twins(d, e, x, y) <==> x in rho && rho[x] == y
  {
    if n == 0 {
      rho := map[];
    } else {
      var last: nat := n - 1;
      var less := MatchingFrom(d, e, last);
      if exists y: nat :: Twins(d, e, last, y) {
        var y: nat :| Twins(d, e, last, y);
        rho := less[last := y];
      } else {
        rho := less;
      }
      forall x: nat, y: nat ensures x < n && Twins(d, e, x, y) <==> x in rho && rho[x] == y {
        assert x < last && Twins(d, e, x, y) <==> x in less && less[x] == y;
        if x == last && x in rho {
          assert Twins(d, e, x, rho[x]);
        }
      }
    }
  }

  lemma Matching(d: seq<Desc>, e: seq<Desc>) returns (rho: Rename)
    requires Distinct(e)
    ensures Matches(rho, d, e)
  {
    rho := MatchingFrom(d, e, |d|);
  }

  lemma MatchedInjective(rho: Rename, d: seq<Desc>, e: seq<Desc>, x: nat, y: nat)
    requires Matches(rho, d, e) && Distinct(d) && x in rho && y in rho && rho[x] == rho[y]
    ensures x == y
  {
    assert Twins(d, e, x, rho[x]) && Twins(d, e, y, rho[y]);
  }

  lemma MatchedPairs(rho: Rename, d: seq<Desc>, e: seq<Desc>, l: seq<(nat, nat)>, l': seq<(nat, nat)>)
    requires Matches(rho, d, e) && PairsIn(l, |d|) && PairsIn(l', |e|) && ReadPairs(d, l) == ReadPairs(e, l')
    ensures PairsNamed(rho, l) && l' == PairsThrough(rho, l)
  {
    forall i | 0 <= i < |l| ensures l[i].0 in rho && l[i].1 in rho && l'[i] == PairsThrough(rho, l)[i] {
      assert ReadPairs(d, l)[i] == ReadPairs(e, l')[i];
      assert Twins(d, e, l[i].0, l'[i].0) && Twins(d, e, l[i].1, l'[i].1);
    }
    assert |ReadPairs(d, l)| == |ReadPairs(e, l')|;
  }

  lemma MatchedTriples(rho: Rename, d: seq<Desc>, e: seq<Desc>, l: seq<(nat, nat, nat)>, l': seq<(nat, nat, nat)>)
    requires Matches(rho, d, e) && TriplesIn(l, |d|) && TriplesIn(l', |e|) && ReadTriples(d, l) == ReadTriples(e, l')
    ensures TriplesNamed(rho, l) && l' == TriplesThrough(rho, l)
  {
    forall i | 0 <= i < |l| ensures l[i].0 in rho && l[i].1 in rho && l'[i] == TriplesThrough(rho, l)[i] {
      assert ReadTriples(d, l)[i] == ReadTriples(e, l')[i];
      assert Twins(d, e, l[i].0, l'[i].0) && Twins(d, e, l[i].1, l'[i].1);
    }
    assert |ReadTriples(d, l)| == |ReadTriples(e, l')|;
  }

  lemma MatchedLists(rho: Rename, s: Snap, t: Snap)
    requires Matches(rho, s.tie.desc, t.tie.desc) && Solid(s) && Solid(t)
    requires ReadLists(s.tie.desc, s.raw) == ReadLists(t.tie.desc, t.raw)
    ensures ListsRenamed(rho, s.raw, t.raw)
  {
    var d, e := s.tie.desc, t.tie.desc;
    hide Matches, Shape, ReadPairs, ReadTriples, PairsIn, TriplesIn, PairsNamed, TriplesNamed, PairsThrough,
      TriplesThrough;
    MatchedPairs(rho, d, e, s.raw.addr, t.raw.addr);
    MatchedPairs(rho, d, e, s.raw.copies, t.raw.copies);
    MatchedTriples(rho, d, e, s.raw.geps, t.raw.geps);
    MatchedPairs(rho, d, e, s.raw.loads, t.raw.loads);
    MatchedPairs(rho, d, e, s.raw.stores, t.raw.stores);
  }

  lemma MatchedCell(rho: Rename, s: Tie, t: Tie, o: nat, off: nat)
    requires Matches(rho, s.desc, t.desc) && Shape(s) && Shape(t) && CellsTied(s) && CellsTied(t)
    requires (o, off) in s.st.cells && s.st.cells[(o, off)] in rho
    ensures o in rho && (rho[o], off) in t.st.cells && t.st.cells[(rho[o], off)] == rho[s.st.cells[(o, off)]]
  {
    CellRange(s);
    CellRange(t);
    var c := s.st.cells[(o, off)];
    var y := rho[c];
    assert Twins(s.desc, t.desc, c, y);
    assert t.desc[y] == CellOf(Then(s.desc, o), off) && IsCell(t.st, y);
    var o': nat, off': nat :| (o', off') in t.st.cells && t.st.cells[(o', off')] == y;
    assert Then(t.desc, y) == CellOf(Then(t.desc, o'), off');
    assert Twins(s.desc, t.desc, o, o');
  }

  lemma MatchedTables(rho: Rename, s: Tie, t: Tie, b: Bounds, b': Bounds)
    requires Matches(rho, s.desc, t.desc) && Shape(s) && Shape(t) && Tied(s, b) && Tied(t, b')
    ensures TablesRenamed(rho, s, t)
  {
    forall k | k in s.regs && k in t.regs ensures s.regs[k] in rho && rho[s.regs[k]] == t.regs[k] {
      assert Then(s.desc, s.regs[(k.0, k.1)]) == RegOf(k.0, k.1) == Then(t.desc, t.regs[(k.0, k.1)]);
      assert Twins(s.desc, t.desc, s.regs[k], t.regs[k]);
    }
    forall k | k in s.globals && k in t.globals ensures s.globals[k] in rho && rho[s.globals[k]] == t.globals[k] {
      assert Then(s.desc, s.globals[k]) == GlobalOf(k) == Then(t.desc, t.globals[k]);
      assert Twins(s.desc, t.desc, s.globals[k], t.globals[k]);
    }
  }

  lemma MatchedPoison(rho: Rename, s: Tie, t: Tie, x: nat)
    requires Matches(rho, s.desc, t.desc) && Shape(s) && Shape(t) && PoisonTied(s) && PoisonTied(t)
    requires PoisonNames(s) == PoisonNames(t) && x in s.st.poisoned
    ensures x in rho && rho[x] in t.st.poisoned
  {
    assert NameIn(Then(s.desc, x)) in PoisonNames(s);
    var y :| y in t.st.poisoned && NameIn(Then(t.desc, y)) == NameIn(Then(s.desc, x));
    assert Then(s.desc, x).GlobalOf? && Then(t.desc, y).GlobalOf?;
    assert Twins(s.desc, t.desc, x, y);
  }

  lemma MatchedTop(rho: Rename, d: seq<Desc>, e: seq<Desc>)
    requires Matches(rho, d, e) && d != [] && e != [] && d[TOP] == Top == e[TOP]
    ensures TOP in rho && rho[TOP] == TOP
  {
    assert Twins(d, e, TOP, TOP);
  }

  lemma MatchRenames(rho: Rename, s: Snap, t: Snap, b: Bounds, b': Bounds)
    requires Matches(rho, s.tie.desc, t.tie.desc) && Solid(s) && Solid(t) && Tied(s.tie, b) && Tied(t.tie, b')
    requires ReadLists(s.tie.desc, s.raw) == ReadLists(t.tie.desc, t.raw) && PoisonNames(s.tie) == PoisonNames(t.tie)
    ensures Renames(rho, s, t)
  {
    hide *;
    Building.SolidParts(s);
    Building.SolidParts(t);
    TiedParts(s.tie, b);
    TiedParts(t.tie, b');
    MatchedTop(rho, s.tie.desc, t.tie.desc);
    MatchedLists(rho, s, t);
    MatchedTables(rho, s.tie, t.tie, b, b');
    forall x: nat, y: nat | x in rho && y in rho && rho[x] == rho[y] ensures x == y {
      MatchedInjective(rho, s.tie.desc, t.tie.desc, x, y);
    }
    forall o: nat, off: nat | (o, off) in s.tie.st.cells && s.tie.st.cells[(o, off)] in rho
      ensures o in rho && (rho[o], off) in t.tie.st.cells
      ensures t.tie.st.cells[(rho[o], off)] == rho[s.tie.st.cells[(o, off)]]
    {
      MatchedCell(rho, s.tie, t.tie, o, off);
    }
    forall x: nat | x in s.tie.st.poisoned ensures x in rho && rho[x] in t.tie.st.poisoned {
      MatchedPoison(rho, s.tie, t.tie, x);
    }
    RenamesIntro(rho, s, t);
  }

  lemma RenamesIntro(rho: Rename, s: Snap, t: Snap)
    requires TOP in rho && rho[TOP] == TOP
    requires forall x: nat, y: nat :: x in rho && y in rho && rho[x] == rho[y] ==> x == y
    requires ListsRenamed(rho, s.raw, t.raw) && TablesRenamed(rho, s.tie, t.tie)
    requires forall o: nat, off: nat :: (o, off) in s.tie.st.cells && s.tie.st.cells[(o, off)] in rho ==>
               o in rho && (rho[o], off) in t.tie.st.cells &&
               t.tie.st.cells[(rho[o], off)] == rho[s.tie.st.cells[(o, off)]]
    requires forall x: nat :: x in s.tie.st.poisoned ==> x in rho && rho[x] in t.tie.st.poisoned
    ensures Renames(rho, s, t)
  {
    hide ListsRenamed, TablesRenamed;
  }

  /**
   Two builders that mean the same differ in the numbers of nodes only: one
   renaming and its inverse fix TOP and carry lists, cells, registers, globals
   and poisoned objects of each over to the other.
   */
  lemma EqualUpToNumbers(s: Snap, t: Snap, b: Bounds, b': Bounds) returns (rho: Rename, back: Rename)
    requires Solid(s) && Solid(t) && Tied(s.tie, b) && Tied(t.tie, b')
    requires ReadLists(s.tie.desc, s.raw) == ReadLists(t.tie.desc, t.raw) && PoisonNames(s.tie) == PoisonNames(t.tie)
    ensures Renames(rho, s, t) && Renames(back, t, s)
    ensures forall x: nat, y: nat :: x in rho && rho[x] == y <==> y in back && back[y] == x
  {
    TiedParts(s.tie, b);
    TiedParts(t.tie, b');
    hide Solid, Tied, ReadLists, PoisonNames, Distinct, Renames;
    rho := Matching(s.tie.desc, t.tie.desc);
    back := Matching(t.tie.desc, s.tie.desc);
    MatchRenames(rho, s, t, b, b');
    MatchRenames(back, t, s, b', b);
    forall x: nat, y: nat ensures x in rho && rho[x] == y <==> y in back && back[y] == x {
      assert Twins(s.tie.desc, t.tie.desc, x, y) <==> Twins(t.tie.desc, s.tie.desc, y, x);
    }
  }

  /** Building in shards and building in one go: the same tables, up to the numbers of nodes. */
  method BuildTwice(shards: seq<seq<Unit>>)
    returns (a: Building.Builder, b: Building.Builder, ghost rho: Rename, ghost back: Rename)
    ensures a.Valid() && b.Valid() && a.Exact() && b.Exact() ==>
              Renames(rho, a.Now(), b.Now()) && Renames(back, b.Now(), a.Now()) &&
              a.KnownTables() == b.KnownTables() &&
              forall x: nat, y: nat :: x in rho && rho[x] == y <==> y in back && back[y] == x
  {
    hide Solid, Tied, ReadLists, PoisonNames, Renames, PushedAll, Joined;
    a := Building.BuildShards(shards);
    b := Building.BuildAll(Joined(shards));
    rho, back := map[], map[];
    if a.Exact() && b.Exact() {
      rho, back := EqualUpToNumbers(a.Now(), b.Now(), Bounds(a.next, a.next, a.units, 0),
                                    Bounds(b.next, b.next, b.units, 0));
    }
  }
}
