/**
 Numbered nodes and what they stand for: the tables of the points-to builder
 (crates/absint/src/pointsto.rs:433-560) give each description one node.

 `Tied` says that the tables agree with the descriptions. Each way of making a
 node is one step that keeps it; `Built` follows a stretch of steps and says
 which constraints and poisoned globals came in.
 */
module Numbering {
  import opened Wrappers
  import opened PointsToRules
  import opened Shards

  /** The node tables of a builder; `desc[x]` is what node `x` stands for. */
  datatype Tie = Tie(st: State, desc: seq<Desc>, regs: map<(nat, nat), nat>, globals: map<string, nat>,
                     names: map<nat, string>)

  /**
   Registers have ids below `g`, and those with ids below `known` are in the
   table; temporaries are numbered up to `(u, k)`; no register has fields.
   */
  datatype Bounds = Bounds(known: nat, g: nat, u: nat, k: nat)

  function Then(d: seq<Desc>, x: nat): Desc {
    if x < |d| then d[x] else Top
  }

  // ------------------------------------------------------------ the tables agree

  /** Before solving the sets hold nothing but the mark of a poisoned object. */
  ghost predicate Unsolved(st: State) {
    st.saturated == {} && forall x: nat :: x < |st.pts| ==> st.pts[x] <= {TOP}
  }

  /** Numbers are in range. */
  ghost predicate Shape(t: Tie) {
    && Good(t.st) && Unsolved(t.st) && |t.desc| == t.st.n
    && (forall k :: k in t.regs ==> t.regs[k] < t.st.n)
    && (forall name :: name in t.globals ==> t.globals[name] < t.st.n)
    && (forall x: nat :: x in t.names ==> x < t.st.n)
  }

  ghost predicate Small(t: Tie) {
    t.st.n < MAX_NODES
  }

  ghost predicate Distinct(desc: seq<Desc>) {
    forall x: nat, y: nat :: x < y < |desc| ==> desc[x] != desc[y]
  }

  /** Cells stand for the fields of their objects. */
  ghost predicate CellsTied(t: Tie) {
    && (forall o: nat, off: nat :: (o, off) in t.st.cells ==>
        Then(t.desc, t.st.cells[(o, off)]) == CellOf(Then(t.desc, o), off))
    && (forall x: nat :: x < |t.desc| && t.desc[x].CellOf? ==> IsCell(t.st, x))
  }

  ghost predicate RegsTied(t: Tie, known: nat) {
    && (forall g: nat, r: nat :: (g, r) in t.regs ==> Then(t.desc, t.regs[(g, r)]) == RegOf(g, r))
    && (forall x: nat :: x < |t.desc| && t.desc[x].RegOf? && t.desc[x].g < known ==>
        (t.desc[x].g, t.desc[x].r) in t.regs)
  }

  ghost predicate GlobalsKnown(t: Tie) {
    forall name: string :: name in t.globals ==> Then(t.desc, t.globals[name]) == GlobalOf(name)
  }

  ghost predicate NamesKnown(t: Tie) {
    forall x: nat :: x in t.names ==> Then(t.desc, x) == GlobalOf(t.names[x])
  }

  ghost predicate GlobalsListed(t: Tie) {
    forall x: nat :: x < |t.desc| && t.desc[x].GlobalOf? ==> t.desc[x].name in t.globals && x in t.names
  }

  ghost predicate GlobalsTied(t: Tie) {
    GlobalsKnown(t) && NamesKnown(t) && GlobalsListed(t)
  }

  predicate Allowed(d: Desc, b: Bounds) {
    match d
    case RegOf(g, _) => g < b.g
    case Local(u, k) => u < b.u || (u == b.u && k < b.k)
    case CellOf(o, _) => !o.RegOf?
    case _ => true
  }

  ghost predicate Bounded(desc: seq<Desc>, b: Bounds) {
    forall x: nat :: x < |desc| ==> Allowed(desc[x], b)
  }

  /** Only globals are poisoned. */
  ghost predicate PoisonTied(t: Tie) {
    forall x: nat :: x in t.st.poisoned ==> Then(t.desc, x).GlobalOf?
  }

  ghost predicate Tied(t: Tie, b: Bounds) {
    && t.desc != [] && t.desc[TOP] == Top
    && Distinct(t.desc) && CellsTied(t) && RegsTied(t, b.known) && GlobalsTied(t) && Bounded(t.desc, b) && PoisonTied(t)
  }

  function NameIn(d: Desc): string {
    if d.GlobalOf? then d.name else ""
  }

  ghost function PoisonNames(t: Tie): set<string> {
    set x | x in t.st.poisoned :: NameIn(Then(t.desc, x))
  }

  lemma TiedParts(t: Tie, b: Bounds)
    requires Tied(t, b)
    ensures t.desc != [] && t.desc[TOP] == Top
    ensures Distinct(t.desc) && CellsTied(t) && RegsTied(t, b.known) && GlobalsTied(t) && Bounded(t.desc, b)
    ensures PoisonTied(t)
  {
    hide Distinct, CellsTied, RegsTied, GlobalsTied, Bounded, PoisonTied;
  }

  lemma TiedIntro(t: Tie, b: Bounds)
    requires t.desc != [] && t.desc[TOP] == Top
    requires Distinct(t.desc) && CellsTied(t) && RegsTied(t, b.known) && GlobalsTied(t) && Bounded(t.desc, b)
    requires PoisonTied(t)
    ensures Tied(t, b)
  {
    hide Distinct, CellsTied, RegsTied, GlobalsTied, Bounded, PoisonTied;
  }

  // ------------------------------------------------------------ a new node

  /** A node that is no field cell. */
  ghost function WithNode(t: Tie, d: Desc): Tie {
    t.(st := Fresh(t.st, Base(t.st.n), {}), desc := t.desc + [d])
  }

  lemma WithNodeShape(t: Tie, d: Desc)
    requires Shape(t) && Good(Fresh(t.st, Base(t.st.n), {}))
    ensures Shape(WithNode(t, d))
  {
    hide Good;
  }

  lemma DistinctSnoc(desc: seq<Desc>, d: Desc)
    requires Distinct(desc) && d !in desc
    ensures Distinct(desc + [d])
  {
  }

  /** A known state whose cells point into it, which is what keeps `Then` stable. */
  lemma CellRange(t: Tie)
    requires Shape(t)
    ensures forall o: nat, off: nat :: (o, off) in t.st.cells ==> o < |t.desc| && t.st.cells[(o, off)] < |t.desc|
    ensures forall x: nat :: x in t.st.poisoned ==> x < |t.desc|
    ensures 0 < |t.desc|
  {
  }

  lemma SnocCells(t: Tie, d: Desc)
    requires Shape(t) && CellsTied(t) && !d.CellOf?
    ensures CellsTied(WithNode(t, d))
  {
    CellRange(t);
    var t' := WithNode(t, d);
    forall x: nat | x < |t.desc| && IsCell(t.st, x) ensures IsCell(t'.st, x) {
      assert t'.st.cells == t.st.cells;
    }
    hide Shape, IsCell;
  }

  lemma SnocRegs(t: Tie, d: Desc, known: nat)
    requires Shape(t) && RegsTied(t, known) && (d.RegOf? ==> d.g >= known)
    ensures RegsTied(WithNode(t, d), known)
  {
  }

  lemma SnocGlobals(t: Tie, d: Desc)
    requires Shape(t) && GlobalsTied(t) && !d.GlobalOf?
    ensures GlobalsTied(WithNode(t, d))
  {
  }

  lemma SnocPoison(t: Tie, d: Desc)
    requires Shape(t)
    ensures PoisonTied(t) ==> PoisonTied(WithNode(t, d))
    ensures PoisonNames(WithNode(t, d)) == PoisonNames(t)
  {
    CellRange(t);
    hide Shape;
    var t' := WithNode(t, d);
    assert t'.st.poisoned == t.st.poisoned;
    forall x: nat | x in t.st.poisoned ensures Then(t'.desc, x) == Then(t.desc, x) {
    }
    forall name: string ensures name in PoisonNames(t') <==> name in PoisonNames(t) {
    }
  }

  lemma SnocBounded(desc: seq<Desc>, d: Desc, b: Bounds, b': Bounds)
    requires Bounded(desc, b) && b.g <= b'.g && (b.u < b'.u || (b.u == b'.u && b.k <= b'.k)) && Allowed(d, b')
    ensures Bounded(desc + [d], b')
  {
  }

  /** A temporary, or a register that the table is still to learn of. */
  lemma NodeTied(t: Tie, d: Desc, b: Bounds, b': Bounds)
    requires Shape(t) && Tied(t, b) && d !in t.desc && (d.RegOf? || d.Local?) && (d.RegOf? ==> d.g >= b.known)
    requires Allowed(d, b')
    requires b.known == b'.known && b.g <= b'.g && (b.u < b'.u || (b.u == b'.u && b.k <= b'.k))
    ensures Tied(WithNode(t, d), b')
  {
    hide Shape, Distinct, CellsTied, RegsTied, GlobalsTied, Bounded, PoisonTied, Fresh;
    DistinctSnoc(t.desc, d);
    SnocCells(t, d);
    SnocRegs(t, d, b.known);
    SnocGlobals(t, d);
    SnocPoison(t, d);
    SnocBounded(t.desc, d, b, b');
  }

  /** A register enters the table with its node. */
  ghost function WithReg(t: Tie, g: nat, r: nat): Tie {
    WithNode(t, RegOf(g, r)).(regs := t.regs[(g, r) := t.st.n])
  }

  lemma RegFresh(t: Tie, g: nat, r: nat, known: nat)
    requires RegsTied(t, known) && g < known && (g, r) !in t.regs
    ensures RegOf(g, r) !in t.desc
  {
  }

  lemma SnocRegIn(t: Tie, g: nat, r: nat, known: nat)
    requires Shape(t) && RegsTied(t, known) && (g, r) !in t.regs
    ensures RegsTied(WithReg(t, g, r), known)
  {
  }

  lemma RegTied(t: Tie, g: nat, r: nat, b: Bounds)
    requires Shape(t) && Tied(t, b) && g < b.known <= b.g && (g, r) !in t.regs
    ensures Tied(WithReg(t, g, r), b)
  {
    hide Distinct, CellsTied, RegsTied, GlobalsTied, Bounded, PoisonTied, Fresh, Shape;
    var d := RegOf(g, r);
    RegFresh(t, g, r, b.known);
    DistinctSnoc(t.desc, d);
    SnocCells(t, d);
    SnocRegIn(t, g, r, b.known);
    SnocGlobals(t, d);
    SnocPoison(t, d);
    SnocBounded(t.desc, d, b, b);
    OtherRegs(WithNode(t, d), t.regs[(g, r) := t.st.n]);
  }

  lemma OtherRegs(t: Tie, regs: map<(nat, nat), nat>)
    ensures CellsTied(t) ==> CellsTied(t.(regs := regs))
    ensures GlobalsTied(t) ==> GlobalsTied(t.(regs := regs))
    ensures PoisonTied(t) ==> PoisonTied(t.(regs := regs))
    ensures PoisonNames(t.(regs := regs)) == PoisonNames(t)
  {
  }

  /** A global enters both of its tables with its node. */
  ghost function WithGlobal(t: Tie, name: string): Tie {
    WithNode(t, GlobalOf(name)).(globals := t.globals[name := t.st.n], names := t.names[t.st.n := name])
  }

  lemma GlobalFresh(t: Tie, name: string)
    requires GlobalsTied(t) && name !in t.globals
    ensures GlobalOf(name) !in t.desc
  {
  }

  lemma SnocKnown(t: Tie, name: string)
    requires Shape(t) && GlobalsKnown(t)
    ensures GlobalsKnown(WithGlobal(t, name))
  {
  }

  lemma SnocNames(t: Tie, name: string)
    requires Shape(t) && NamesKnown(t)
    ensures NamesKnown(WithGlobal(t, name))
  {
  }

  lemma SnocListed(t: Tie, name: string)
    requires Shape(t) && GlobalsListed(t)
    ensures GlobalsListed(WithGlobal(t, name))
  {
  }

  lemma SnocGlobalIn(t: Tie, name: string)
    requires Shape(t) && GlobalsTied(t)
    ensures GlobalsTied(WithGlobal(t, name))
  {
    SnocKnown(t, name);
    SnocNames(t, name);
    SnocListed(t, name);
    hide Shape, GlobalsKnown, NamesKnown, GlobalsListed, WithGlobal;
  }

  lemma OtherGlobals(t: Tie, globals: map<string, nat>, names: map<nat, string>, known: nat)
    ensures CellsTied(t) ==> CellsTied(t.(globals := globals, names := names))
    ensures RegsTied(t, known) ==> RegsTied(t.(globals := globals, names := names), known)
    ensures PoisonTied(t) ==> PoisonTied(t.(globals := globals, names := names))
    ensures PoisonNames(t.(globals := globals, names := names)) == PoisonNames(t)
  {
  }

  lemma GlobalTied(t: Tie, name: string, b: Bounds)
    requires Shape(t) && Tied(t, b) && name !in t.globals
    ensures Tied(WithGlobal(t, name), b)
  {
    hide Distinct, CellsTied, RegsTied, GlobalsTied, Bounded, PoisonTied, Fresh, Shape;
    var d := GlobalOf(name);
    GlobalFresh(t, name);
    DistinctSnoc(t.desc, d);
    SnocCells(t, d);
    SnocRegs(t, d, b.known);
    SnocGlobalIn(t, name);
    SnocPoison(t, d);
    SnocBounded(t.desc, d, b, b);
    OtherGlobals(WithNode(t, d), t.globals[name := t.st.n], t.names[t.st.n := name], b.known);
  }

  // ------------------------------------------------------------ a field cell

  /** Interning a field names the new cell, if there is one. */
  ghost function WithField(t: Tie, o: nat, off: nat): Tie
    requires Shape(t) && o < t.st.n
  {
    var st := Interned(t.st, o, off);
    t.(st := st, desc := if st.n == t.st.n then t.desc else t.desc + [CellOf(Then(t.desc, o), off)])
  }

  lemma WithFieldShape(t: Tie, o: nat, off: nat)
    requires Shape(t) && o < t.st.n
    ensures Shape(WithField(t, o, off)) && t.st.n <= WithField(t, o, off).st.n && t.desc <= WithField(t, o, off).desc
  {
    InternedGood(t.st, o, off);
    hide Good;
  }

  lemma CellAt(t: Tie, o: nat, off: nat, x: nat)
    requires Shape(t) && Distinct(t.desc) && CellsTied(t) && o < t.st.n && x < t.st.n
    requires t.desc[x] == CellOf(t.desc[o], off)
    ensures (o, off) in t.st.cells
  {
    CellRange(t);
    assert IsCell(t.st, x);
    var o': nat, off': nat :| (o', off') in t.st.cells && t.st.cells[(o', off')] == x;
    assert t.desc[o'] == t.desc[o];
  }

  lemma CellFresh(t: Tie, o: nat, off: nat)
    requires Shape(t) && Distinct(t.desc) && CellsTied(t) && o < t.st.n && (o, off) !in t.st.cells
    ensures CellOf(t.desc[o], off) !in t.desc
  {
    hide Distinct, CellsTied;
    forall x: nat | x < |t.desc| ensures t.desc[x] != CellOf(t.desc[o], off) {
      if t.desc[x] == CellOf(t.desc[o], off) {
        CellAt(t, o, off, x);
      }
    }
  }

  lemma SnocCellIn(t: Tie, o: nat, off: nat)
    requires Shape(t) && CellsTied(t) && o < t.st.n && (o, off) !in t.st.cells
    ensures CellsTied(t.(st := NewCell(t.st, o, off), desc := t.desc + [CellOf(t.desc[o], off)]))
  {
    CellRange(t);
    var t' := t.(st := NewCell(t.st, o, off), desc := t.desc + [CellOf(t.desc[o], off)]);
    assert t'.st.cells == t.st.cells[(o, off) := t.st.n];
    forall x: nat | x < |t'.desc| && t'.desc[x].CellOf? ensures IsCell(t'.st, x) {
      if x == t.st.n {
        assert (o, off) in t'.st.cells;
      } else {
        assert IsCell(t.st, x);
        var o': nat, off': nat :| (o', off') in t.st.cells && t.st.cells[(o', off')] == x;
        assert (o', off') in t'.st.cells && t'.st.cells[(o', off')] == x;
      }
    }
    hide Shape, IsCell;
  }

  lemma NewCellTied(t: Tie, o: nat, off: nat, b: Bounds)
    requires Shape(t) && Tied(t, b) && o < t.st.n && (o, off) !in t.st.cells && !t.desc[o].RegOf?
    ensures var t' := t.(st := NewCell(t.st, o, off), desc := t.desc + [CellOf(t.desc[o], off)]);
            Tied(t', b) && PoisonNames(t') == PoisonNames(t)
  {
    var d := CellOf(t.desc[o], off);
    var t' := t.(st := NewCell(t.st, o, off), desc := t.desc + [d]);
    CellFresh(t, o, off);
    DistinctSnoc(t.desc, d);
    SnocCellIn(t, o, off);
    SnocRegs(t, d, b.known);
    SnocGlobals(t, d);
    SnocPoison(t, d);
    SnocBounded(t.desc, d, b, b);
    SameCells(WithNode(t, d), t', b.known);
    hide Distinct, CellsTied, RegsTied, GlobalsTied, Bounded, PoisonTied, Shape, Fresh, NewCell;
  }

  lemma SameCells(t: Tie, u: Tie, known: nat)
    requires u == t.(st := u.st) && u.st.poisoned == t.st.poisoned
    ensures RegsTied(t, known) ==> RegsTied(u, known)
    ensures GlobalsTied(t) ==> GlobalsTied(u)
    ensures PoisonTied(t) ==> PoisonTied(u)
    ensures PoisonNames(u) == PoisonNames(t)
  {
  }

  /** Poisoning marks one more global. */
  lemma PoisonedTied(t: Tie, o: nat, b: Bounds)
    requires Shape(t) && Tied(t, b) && o < t.st.n && (o == TOP || t.desc[o].GlobalOf?)
    ensures var t' := t.(st := Poisoned(t.st, o));
            && Tied(t', b)
            && PoisonNames(t') == if o == TOP then PoisonNames(t) else PoisonNames(t) + {NameIn(t.desc[o])}
  {
    var t' := t.(st := Poisoned(t.st, o));
    assert t'.st.cells == t.st.cells && t'.st.poisoned == if o == TOP then t.st.poisoned else t.st.poisoned + {o};
    hide Poisoned, Shape;
    forall x: nat | IsCell(t.st, x) ensures IsCell(t'.st, x) {
    }
    assert CellsTied(t');
    assert PoisonTied(t');
    PoisonNamesPlus(t, t', o);
    hide Distinct, CellsTied, RegsTied, GlobalsTied, Bounded, PoisonTied, PoisonNames;
    OtherStates(t, t', b.known);
  }

  lemma OtherStates(t: Tie, u: Tie, known: nat)
    requires u == t.(st := u.st)
    ensures RegsTied(t, known) ==> RegsTied(u, known)
    ensures GlobalsTied(t) ==> GlobalsTied(u)
  {
  }

  lemma PoisonNamesPlus(t: Tie, u: Tie, o: nat)
    requires u.desc == t.desc && o < |t.desc| && u.st.poisoned == if o == TOP then t.st.poisoned
             else t.st.poisoned + {o}
    ensures PoisonNames(u) == if o == TOP then PoisonNames(t) else PoisonNames(t) + {NameIn(t.desc[o])}
  {
    if o != TOP {
      forall name: string ensures name in PoisonNames(u) <==> name in PoisonNames(t) + {NameIn(t.desc[o])} {
        assert o in u.st.poisoned;
      }
    }
  }

  ghost predicate FieldFits(t: Tie, o: nat, off: nat, b: Bounds)
    requires Shape(t) && o < t.st.n
  {
    var t' := WithField(t, o, off);
    && Tied(t', b) && FieldNode(t'.st, o, off).Some? &&
        Then(t'.desc, FieldNode(t'.st, o, off).value) == FieldOf(t.desc[o], off)
    && PoisonNames(t') == PoisonNames(t) + (if off == ANY_OFFSET && o != TOP then {NameIn(t.desc[o])} else {})
  }

  lemma FieldKnown(t: Tie, o: nat, off: nat, b: Bounds)
    requires Shape(t) && Tied(t, b) && o < t.st.n && off != ANY_OFFSET && FieldNode(t.st, o, off).Some? && Small(t)
    ensures FieldFits(t, o, off, b)
  {
    var t' := WithField(t, o, off);
    assert t' == t;
    assert o != TOP ==> t.desc[o] != Top;
    TiedParts(t, b);
    if (o, off) in t.st.cells {
      assert Then(t.desc, t.st.cells[(o, off)]) == CellOf(Then(t.desc, o), off);
      CellRange(t);
    }
    hide Tied, Good, PoisonNames, Distinct, CellsTied;
  }

  lemma FieldMade(t: Tie, o: nat, off: nat, b: Bounds)
    requires Shape(t) && Tied(t, b) && o < t.st.n && off != ANY_OFFSET && FieldNode(t.st, o, off).None?
    requires !t.desc[o].RegOf?
    ensures FieldFits(t, o, off, b)
  {
    var t' := WithField(t, o, off);
    TiedParts(t, b);
    assert t.desc[o] != Top by {
      hide Good, CellsTied, RegsTied, GlobalsTied, Bounded, PoisonTied;
    }
    NewCellTied(t, o, off, b);
    hide Tied, PoisonNames, Good, Distinct, CellsTied, RegsTied, GlobalsTied, Bounded, PoisonTied;
    assert t' == t.(st := NewCell(t.st, o, off), desc := t.desc + [CellOf(t.desc[o], off)]);
    assert t'.st.cells[(o, off)] == t.st.n;
  }

  lemma FieldPoisons(t: Tie, o: nat, b: Bounds)
    requires Shape(t) && Tied(t, b) && o < t.st.n && (o == TOP || t.desc[o].GlobalOf?)
    ensures FieldFits(t, o, ANY_OFFSET, b)
  {
    TiedParts(t, b);
    PoisonedTied(t, o, b);
    PoisonKeepsSize(t.st, o);
    hide Tied, PoisonNames, Poisoned, Good, Distinct, CellsTied, RegsTied, GlobalsTied, Bounded, PoisonTied;
    assert WithField(t, o, ANY_OFFSET) == t.(st := Poisoned(t.st, o));
  }

  lemma PoisonKeepsSize(st: State, o: nat)
    requires |st.pts| == st.n
    ensures Poisoned(st, o).n == st.n
  {
  }

  /** The node of a field stands for it, as long as there is room. */
  lemma FieldTied(t: Tie, o: nat, off: nat, b: Bounds)
    requires Shape(t) && Tied(t, b) && o < t.st.n && Small(WithField(t, o, off))
    requires if off == ANY_OFFSET then o == TOP || t.desc[o].GlobalOf? else !t.desc[o].RegOf?
    ensures FieldFits(t, o, off, b)
  {
    WithFieldShape(t, o, off);
    hide FieldFits, Tied, Good, Interned;
    if off == ANY_OFFSET {
      FieldPoisons(t, o, b);
    } else if FieldNode(t.st, o, off).None? {
      FieldMade(t, o, off, b);
    } else {
      FieldKnown(t, o, off, b);
    }
  }

  // ------------------------------------------------------------ lists

  function ReadPairs(desc: seq<Desc>, l: seq<(nat, nat)>): seq<(Desc, Desc)> {
    seq(|l|, i requires 0 <= i < |l| => (Then(desc, l[i].0), Then(desc, l[i].1)))
  }

  function ReadTriples(desc: seq<Desc>, l: seq<(nat, nat, nat)>): seq<(Desc, Desc, nat)> {
    seq(|l|, i requires 0 <= i < |l| => (Then(desc, l[i].0), Then(desc, l[i].1), l[i].2))
  }

  /** The constraints, with nodes replaced by what they stand for. */
  function ReadLists(desc: seq<Desc>, raw: Lists<nat>): Lists<Desc> {
    Lists(ReadPairs(desc, raw.addr), ReadPairs(desc, raw.copies), ReadTriples(desc, raw.geps),
          ReadPairs(desc, raw.loads), ReadPairs(desc, raw.stores))
  }

  ghost predicate PairsIn(l: seq<(nat, nat)>, n: nat) {
    forall i: nat :: i < |l| ==> l[i].0 < n && l[i].1 < n
  }

  ghost predicate TriplesIn(l: seq<(nat, nat, nat)>, n: nat) {
    forall i: nat :: i < |l| ==> l[i].0 < n && l[i].1 < n
  }

  ghost predicate ListsIn(raw: Lists<nat>, n: nat) {
    PairsIn(raw.addr, n) && PairsIn(raw.copies, n) && TriplesIn(raw.geps, n) && PairsIn(raw.loads, n) &&
        PairsIn(raw.stores, n)
  }

  lemma PairsStay(desc: seq<Desc>, desc': seq<Desc>, l: seq<(nat, nat)>)
    requires desc <= desc' && PairsIn(l, |desc|)
    ensures ReadPairs(desc', l) == ReadPairs(desc, l) && PairsIn(l, |desc'|)
  {
  }

  lemma TriplesStay(desc: seq<Desc>, desc': seq<Desc>, l: seq<(nat, nat, nat)>)
    requires desc <= desc' && TriplesIn(l, |desc|)
    ensures ReadTriples(desc', l) == ReadTriples(desc, l) && TriplesIn(l, |desc'|)
  {
  }

  /** New nodes do not change what the constraints say. */
  lemma ListsStay(desc: seq<Desc>, desc': seq<Desc>, raw: Lists<nat>)
    requires desc <= desc' && ListsIn(raw, |desc|)
    ensures ReadLists(desc', raw) == ReadLists(desc, raw) && ListsIn(raw, |desc'|)
  {
    PairsStay(desc, desc', raw.addr);
    PairsStay(desc, desc', raw.copies);
    TriplesStay(desc, desc', raw.geps);
    PairsStay(desc, desc', raw.loads);
    PairsStay(desc, desc', raw.stores);
    hide ReadPairs, ReadTriples, PairsIn, TriplesIn;
  }

  lemma PairsSnoc(desc: seq<Desc>, l: seq<(nat, nat)>, x: nat, y: nat)
    requires PairsIn(l, |desc|) && x < |desc| && y < |desc|
    ensures PairsIn(l + [(x, y)], |desc|) && ReadPairs(desc, l + [(x, y)]) == ReadPairs(desc, l) + [(desc[x], desc[y])]
  {
  }

  lemma TriplesSnoc(desc: seq<Desc>, l: seq<(nat, nat, nat)>, x: nat, y: nat, off: nat)
    requires TriplesIn(l, |desc|) && x < |desc| && y < |desc|
    ensures TriplesIn(l + [(x, y, off)], |desc|)
    ensures ReadTriples(desc, l + [(x, y, off)]) == ReadTriples(desc, l) + [(desc[x], desc[y], off)]
  {
  }

  /** Add one constraint between given ends; `kind` says to which list. */
  function Put<N>(raw: Lists<N>, kind: Kind, x: N, y: N): Lists<N> {
    match kind
    case Addr => raw.(addr := raw.addr + [(x, y)])
    case Copy => raw.(copies := raw.copies + [(x, y)])
    case Gep(off) => raw.(geps := raw.geps + [(x, y, off)])
    case Load => raw.(loads := raw.loads + [(x, y)])
    case Store => raw.(stores := raw.stores + [(x, y)])
  }

  datatype Kind = Addr | Copy | Gep(off: nat) | Load | Store

  lemma PutReads(desc: seq<Desc>, raw: Lists<nat>, kind: Kind, x: nat, y: nat)
    requires ListsIn(raw, |desc|) && x < |desc| && y < |desc|
    ensures ListsIn(Put(raw, kind, x, y), |desc|)
    ensures ReadLists(desc, Put(raw, kind, x, y)) == Put(ReadLists(desc, raw), kind, desc[x], desc[y])
  {
    match kind {
      case Addr => PairsSnoc(desc, raw.addr, x, y);
      case Copy => PairsSnoc(desc, raw.copies, x, y);
      case Gep(off) => TriplesSnoc(desc, raw.geps, x, y, off);
      case Load => PairsSnoc(desc, raw.loads, x, y);
      case Store => PairsSnoc(desc, raw.stores, x, y);
    }
    hide ReadPairs, ReadTriples, PairsIn, TriplesIn;
  }

  lemma PutPlus(a: Lists<Desc>, b: Lists<Desc>, kind: Kind, x: Desc, y: Desc)
    ensures Put(Plus(a, b), kind, x, y) == Plus(a, Put(b, kind, x, y))
  {
    assert a.addr + b.addr + [(x, y)] == a.addr + (b.addr + [(x, y)]);
    assert a.copies + b.copies + [(x, y)] == a.copies + (b.copies + [(x, y)]);
    assert kind.Gep? ==> a.geps + b.geps + [(x, y, kind.off)] == a.geps + (b.geps + [(x, y, kind.off)]);
    assert a.loads + b.loads + [(x, y)] == a.loads + (b.loads + [(x, y)]);
    assert a.stores + b.stores + [(x, y)] == a.stores + (b.stores + [(x, y)]);
  }

  // ------------------------------------------------------------ building

  datatype Snap = Snap(tie: Tie, raw: Lists<nat>)

  ghost predicate Solid(s: Snap) {
    Shape(s.tie) && ListsIn(s.raw, |s.tie.desc|)
  }

  ghost predicate Reached(s: Snap, t: Snap, b: Bounds, b': Bounds, ls: Lists<Desc>, ps: set<string>) {
    && Tied(t.tie, b')
    && ReadLists(t.tie.desc, t.raw) == Plus(ReadLists(s.tie.desc, s.raw), ls)
    && PoisonNames(t.tie) == PoisonNames(s.tie) + ps
  }

  /**
   From `s` to `t`, nodes are only added; if `s` was in order and there is still
   room, `t` is in order and has the further constraints `ls` and poisoned
   globals `ps`.
   */
  ghost predicate Built(s: Snap, t: Snap, b: Bounds, b': Bounds, ls: Lists<Desc>, ps: set<string>) {
    && Solid(t) && s.tie.desc <= t.tie.desc && s.tie.st.n <= t.tie.st.n
    && (Small(t.tie) && Tied(s.tie, b) ==> Reached(s, t, b, b', ls, ps))
  }

  /** Node `x` of `t` stands for `d`, if `s` was in order and there is still room. */
  ghost predicate StandsFor(s: Snap, t: Snap, b: Bounds, x: nat, d: Desc) {
    x < |t.tie.desc| && (Small(t.tie) && Tied(s.tie, b) ==> t.tie.desc[x] == d)
  }

  /** Nodes are only added. */
  ghost predicate Grown(s: Snap, t: Snap) {
    Solid(t) && s.tie.desc <= t.tie.desc && s.tie.st.n <= t.tie.st.n
  }

  lemma BuiltSelf(s: Snap, b: Bounds)
    requires Solid(s)
    ensures Built(s, s, b, b, Nothing(), {})
  {
    hide Tied, Shape, ListsIn;
    PlusAssoc(ReadLists(s.tie.desc, s.raw), Nothing(), Nothing());
    hide Plus;
    assert PoisonNames(s.tie) + {} == PoisonNames(s.tie);
  }

  lemma BuiltThen(s: Snap, t: Snap, u: Snap, b: Bounds, b': Bounds, b'': Bounds,
                  ls: Lists<Desc>, ls': Lists<Desc>, ps: set<string>, ps': set<string>)
    requires Built(s, t, b, b', ls, ps) && Built(t, u, b', b'', ls', ps')
    ensures Built(s, u, b, b'', Plus(ls, ls'), ps + ps')
  {
    PlusAssoc(ReadLists(s.tie.desc, s.raw), ls, ls');
    hide Tied, Shape, ListsIn, Plus, ReadLists, PoisonNames;
    if Small(u.tie) && Tied(s.tie, b) {
      assert Reached(s, t, b, b', ls, ps);
      assert PoisonNames(s.tie) + ps + ps' == PoisonNames(s.tie) + (ps + ps');
    }
  }

  lemma StandsOn(s: Snap, t: Snap, u: Snap, b: Bounds, b': Bounds, b'': Bounds,
                 ls: Lists<Desc>, ls': Lists<Desc>, ps: set<string>, ps': set<string>, x: nat, d: Desc)
    requires StandsFor(s, t, b, x, d) && Built(s, t, b, b', ls, ps) && Built(t, u, b', b'', ls', ps')
    ensures StandsFor(s, u, b, x, d)
  {
    hide Tied, Shape, ListsIn, Plus, ReadLists, PoisonNames, Reached;
  }

  lemma StandsLater(s: Snap, t: Snap, u: Snap, b: Bounds, b': Bounds, b'': Bounds,
                    ls: Lists<Desc>, ls': Lists<Desc>, ps: set<string>, ps': set<string>, x: nat, d: Desc)
    requires Built(s, t, b, b', ls, ps) && Built(t, u, b', b'', ls', ps') && StandsFor(t, u, b', x, d)
    ensures StandsFor(s, u, b, x, d)
  {
    hide Tied, Shape, ListsIn, Plus, ReadLists, PoisonNames;
  }

  /** Room for registers of functions to come, and the end of a module. */
  lemma TiedWider(t: Tie, n: nat, more: nat, u: nat)
    requires Tied(t, Bounds(n, n, u, 0))
    ensures Tied(t, Bounds(n + more, n + more, u, 0))
  {
    var b, b' := Bounds(n, n, u, 0), Bounds(n + more, n + more, u, 0);
    TiedParts(t, b);
    hide Distinct, CellsTied, GlobalsTied, PoisonTied, Tied;
    forall x: nat | x < |t.desc| ensures Allowed(t.desc[x], b) && Allowed(t.desc[x], b') {
    }
    TiedIntro(t, b');
  }

  lemma TiedNext(t: Tie, n: nat, u: nat, k: nat)
    requires Tied(t, Bounds(n, n, u, k))
    ensures Tied(t, Bounds(n, n, u + 1, 0))
  {
    var b, b' := Bounds(n, n, u, k), Bounds(n, n, u + 1, 0);
    TiedParts(t, b);
    hide Distinct, CellsTied, GlobalsTied, PoisonTied, RegsTied, Tied;
    forall x: nat | x < |t.desc| ensures Allowed(t.desc[x], b) && Allowed(t.desc[x], b') {
    }
    TiedIntro(t, b');
  }

  /** Recording a constraint between nodes. */
  lemma PutBuilt(s: Snap, t: Snap, b: Bounds, b': Bounds, ls: Lists<Desc>, ps: set<string>, kind: Kind,
                 x: nat, dx: Desc, y: nat, dy: Desc)
    requires Built(s, t, b, b', ls, ps) && StandsFor(s, t, b, x, dx) && StandsFor(s, t, b, y, dy)
    ensures Built(s, t.(raw := Put(t.raw, kind, x, y)), b, b', Put(ls, kind, dx, dy), ps)
  {
    PutReads(t.tie.desc, t.raw, kind, x, y);
    PutPlus(ReadLists(s.tie.desc, s.raw), ls, kind, dx, dy);
    hide Tied, Shape, ListsIn, Plus, ReadLists, PoisonNames, Put;
  }

  lemma PutIs(ls: Lists<Desc>, x: Desc, y: Desc, off: nat)
    ensures Put(ls, Addr, x, y) == Plus(ls, AddrOf(x, y))
    ensures Put(ls, Copy, x, y) == Plus(ls, CopyOf(x, y))
    ensures Put(ls, Gep(off), x, y) == Plus(ls, GepOf(x, y, off))
    ensures Put(ls, Load, x, y) == Plus(ls, LoadOf(x, y))
    ensures Put(ls, Store, x, y) == Plus(ls, StoreOf(x, y))
    ensures Plus(Nothing(), ls) == ls && Plus(ls, Nothing()) == ls
  {
  }

  /** A step that adds nodes only, after one whose result is `x`, with result `y`. */
  lemma AfterNodes(s: Snap, t: Snap, u: Snap, b: Bounds, b': Bounds, b'': Bounds, ls: Lists<Desc>, ps: set<string>,
                   x: nat, d: Desc, y: nat, e: Desc)
    requires Built(s, t, b, b', ls, ps) && StandsFor(s, t, b, x, d)
    requires Built(t, u, b', b'', Nothing(), {}) && StandsFor(t, u, b', y, e)
    ensures Built(s, u, b, b'', ls, ps) && StandsFor(s, u, b, x, d) && StandsFor(s, u, b, y, e)
  {
    BuiltThen(s, t, u, b, b', b'', ls, Nothing(), ps, {});
    PutIs(ls, Top, Top, 0);
    StandsOn(s, t, u, b, b', b'', ls, Nothing(), ps, {}, x, d);
    NoMore(ps);
    StandsLater(s, t, u, b, b', b'', ls, Nothing(), ps, {}, y, e);
    hide Built, Plus, StandsFor;
  }

  lemma AfterQuiet(s: Snap, t: Snap, u: Snap, b: Bounds, b': Bounds, b'': Bounds, ls: Lists<Desc>, x: nat, d: Desc,
                   y: nat, e: Desc)
    requires Built(s, t, b, b', ls, {}) && StandsFor(s, t, b, x, d)
    requires Built(t, u, b', b'', Nothing(), {}) && StandsFor(t, u, b', y, e)
    ensures Built(s, u, b, b'', ls, {}) && StandsFor(s, u, b, x, d) && StandsFor(s, u, b, y, e)
  {
    hide Built, StandsFor;
    AfterNodes(s, t, u, b, b', b'', ls, {}, x, d, y, e);
  }

  lemma NoMore(ps: set<string>)
    ensures ps + {} == ps
  {
  }

  lemma TopStands(s: Snap, t: Snap, b: Bounds, b': Bounds, ls: Lists<Desc>, ps: set<string>)
    requires Built(s, t, b, b', ls, ps)
    ensures StandsFor(s, t, b, TOP, Top)
  {
    CellRange(t.tie);
    hide Shape, ListsIn, Plus, ReadLists, PoisonNames, Distinct, CellsTied, RegsTied, GlobalsTied, Bounded, PoisonTied;
  }

  /** A temporary takes the next number. */
  lemma LocalFresh(desc: seq<Desc>, b: Bounds)
    requires Bounded(desc, b)
    ensures Local(b.u, b.k) !in desc
  {
  }
}
