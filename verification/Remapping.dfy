/**
 Translating the nodes of a later shard into a builder
 (crates/absint/src/pointsto.rs:684-710). A memo keeps the image of every node
 met so far; what is proved is that images stand for the shifted descriptions.

 `Mid` is what holds in the middle of a merge; `Brings` follows a stretch of
 it and says which constraints and poisoned globals have come over.
 */
module Remapping {
  import opened PointsToRules
  import opened Shards
  import opened Numbering

  type Memo = map<nat, nat>

  /** The shard to fold in, and the numbers of functions and modules on both sides. */
  datatype Plan = Plan(o: Tie, gb: nat, on: nat, ub: nat, ou: nat)

  function Outer(p: Plan): Bounds {
    Bounds(p.gb, p.gb + p.on, p.ub + p.ou, 0)
  }

  function Inner(p: Plan): Bounds {
    Bounds(p.on, p.on, p.ou, 0)
  }

  function Image(p: Plan, x: nat): Desc {
    Shift(Then(p.o.desc, x), p.gb, p.ub)
  }

  /** Only nodes of the later shard stand for such things. */
  predicate Late(d: Desc, p: Plan) {
    (d.RegOf? && d.g >= p.gb) || (d.Local? && d.unit >= p.ub)
  }

  ghost predicate MemoShape(t: Tie, p: Plan, memo: Memo) {
    TOP in memo && forall m: nat :: m in memo ==> m < p.o.st.n && memo[m] < |t.desc|
  }

  ghost predicate Mapped(t: Tie, p: Plan, memo: Memo) {
    forall m: nat :: m in memo ==> Then(t.desc, memo[m]) == Image(p, m)
  }

  ghost predicate HasSource(memo: Memo, y: nat) {
    exists m: nat :: m in memo && memo[m] == y
  }

  ghost predicate Covered(t: Tie, p: Plan, memo: Memo) {
    forall y: nat :: y < |t.desc| && Late(t.desc[y], p) ==> HasSource(memo, y)
  }

  /** In the middle of a merge: images stand for what they should, and nothing else of the shard is here yet. */
  ghost predicate Mid(t: Tie, p: Plan, memo: Memo) {
    Tied(p.o, Inner(p)) && Tied(t, Outer(p)) && Mapped(t, p, memo) && Covered(t, p, memo)
  }

  lemma MidParts(t: Tie, p: Plan, memo: Memo)
    requires Mid(t, p, memo)
    ensures Tied(p.o, Inner(p)) && Tied(t, Outer(p)) && Mapped(t, p, memo) && Covered(t, p, memo)
  {
  }

  lemma MidIntro(t: Tie, p: Plan, memo: Memo)
    requires Tied(p.o, Inner(p)) && Tied(t, Outer(p)) && Mapped(t, p, memo) && Covered(t, p, memo)
    ensures Mid(t, p, memo)
  {
  }

  predicate Extends(memo: Memo, memo': Memo) {
    forall m: nat :: m in memo ==> m in memo' && memo'[m] == memo[m]
  }

  ghost predicate Brought(s: Snap, t: Snap, p: Plan, memo': Memo, ls: Lists<Desc>, ps: set<string>) {
    && Mid(t.tie, p, memo')
    && ReadLists(t.tie.desc, t.raw) == Plus(ReadLists(s.tie.desc, s.raw), ls)
    && PoisonNames(t.tie) == PoisonNames(s.tie) + ps
  }

  /** A step of the merge that brings in the constraints `ls` and poisoned globals `ps`. */
  ghost predicate Brings(s: Snap, t: Snap, p: Plan, memo: Memo, memo': Memo, ls: Lists<Desc>, ps: set<string>) {
    && Grown(s, t) && MemoShape(t.tie, p, memo') && Extends(memo, memo')
    && (Small(t.tie) && Mid(s.tie, p, memo) ==> Brought(s, t, p, memo', ls, ps))
  }

  lemma BringsShape(s: Snap, t: Snap, p: Plan, memo: Memo, memo': Memo, ls: Lists<Desc>, ps: set<string>)
    requires Brings(s, t, p, memo, memo', ls, ps)
    ensures Solid(t) && MemoShape(t.tie, p, memo') && Extends(memo, memo') && s.tie.st.n <= t.tie.st.n
    ensures s.tie.desc <= t.tie.desc
  {
    hide Solid, Mid, Brought, MemoShape, Extends;
  }

  lemma BringsMid(s: Snap, t: Snap, p: Plan, memo: Memo, memo': Memo, ls: Lists<Desc>, ps: set<string>)
    requires Brings(s, t, p, memo, memo', ls, ps) && Small(t.tie) && Mid(s.tie, p, memo)
    ensures Mid(t.tie, p, memo') && PoisonNames(t.tie) == PoisonNames(s.tie) + ps
    ensures ReadLists(t.tie.desc, t.raw) == Plus(ReadLists(s.tie.desc, s.raw), ls)
  {
    hide Solid, Mid, MemoShape, Extends, Plus, ReadLists, PoisonNames;
  }

  lemma BringsNothing(s: Snap, p: Plan, memo: Memo)
    requires Solid(s) && MemoShape(s.tie, p, memo)
    ensures Brings(s, s, p, memo, memo, Nothing(), {})
  {
    PutIs(ReadLists(s.tie.desc, s.raw), Top, Top, 0);
    NoMore(PoisonNames(s.tie));
    hide Solid, Mid, Plus, ReadLists, PoisonNames, MemoShape;
  }

  lemma BringsThen(s: Snap, t: Snap, u: Snap, p: Plan, memo: Memo, memo': Memo, memo'': Memo,
                   ls: Lists<Desc>, ls': Lists<Desc>, ps: set<string>, ps': set<string>)
    requires Brings(s, t, p, memo, memo', ls, ps) && Brings(t, u, p, memo', memo'', ls', ps')
    ensures Brings(s, u, p, memo, memo'', Plus(ls, ls'), ps + ps')
  {
    PlusAssoc(ReadLists(s.tie.desc, s.raw), ls, ls');
    assert PoisonNames(s.tie) + ps + ps' == PoisonNames(s.tie) + (ps + ps');
    hide Solid, Mid, Plus, ReadLists, PoisonNames, MemoShape;
  }

  // ------------------------------------------------------------ descriptions

  lemma {:induction false} ShiftInjective(a: Desc, b: Desc, gb: nat, ub: nat)
    requires Shift(a, gb, ub) == Shift(b, gb, ub)
    ensures a == b
    decreases a
  {
    if a.CellOf? {
      ShiftInjective(a.obj, b.obj, gb, ub);
    }
  }

  /** What a plain node stands for: not TOP, no cell, no global. */
  lemma PlainNode(p: Plan, x: nat)
    requires Tied(p.o, Inner(p)) && x < |p.o.desc| && x != TOP && !IsCell(p.o.st, x) && x !in p.o.names
    ensures var d := Image(p, x); (d.RegOf? || d.Local?) && Late(d, p) && Allowed(d, Outer(p))
  {
    TiedParts(p.o, Inner(p));
    var d := p.o.desc[x];
    assert d != Top;
    assert Allowed(d, Inner(p));
    hide Distinct, RegsTied, PoisonTied, Tied;
  }

  /** A plain node that was not met yet has no image. */
  lemma ImageFresh(t: Tie, p: Plan, memo: Memo, x: nat)
    requires Mid(t, p, memo) && MemoShape(t, p, memo) && Shape(p.o) && x < |p.o.desc| && x !in memo
    requires Late(Image(p, x), p)
    ensures Image(p, x) !in t.desc
  {
    MidParts(t, p, memo);
    TiedParts(p.o, Inner(p));
    ShapeIs(p.o);
    hide Tied, Mid, CellsTied, RegsTied, GlobalsTied, Bounded, PoisonTied, Shape;
    forall y: nat | y < |t.desc| ensures t.desc[y] != Image(p, x) {
      if t.desc[y] == Image(p, x) {
        SourceIs(t, p, memo, x, y);
      }
    }
  }

  lemma SourceIs(t: Tie, p: Plan, memo: Memo, x: nat, y: nat)
    requires Mapped(t, p, memo) && Covered(t, p, memo) && MemoShape(t, p, memo) && Distinct(p.o.desc)
    requires p.o.st.n == |p.o.desc|
    requires x < |p.o.desc| && y < |t.desc| && t.desc[y] == Image(p, x) && Late(Image(p, x), p)
    ensures x in memo
  {
    assert HasSource(memo, y);
    var m: nat :| m in memo && memo[m] == y;
    ShiftInjective(p.o.desc[m], p.o.desc[x], p.gb, p.ub);
  }

  lemma ShapeIs(t: Tie)
    requires Shape(t)
    ensures |t.desc| == t.st.n && 0 < t.st.n && Good(t.st)
  {
    hide Good;
    CellRange(t);
  }

  /** The image of a cell is the cell of the image. */
  lemma CellImage(p: Plan, x: nat, obj: nat, off: nat)
    requires Shape(p.o) && Tied(p.o, Inner(p)) && (obj, off) in p.o.st.cells && p.o.st.cells[(obj, off)] == x
    ensures Image(p, x) == FieldOf(Image(p, obj), off) && off != ANY_OFFSET
  {
    CellRange(p.o);
    TiedParts(p.o, Inner(p));
    hide Tied, RegsTied, GlobalsTied, Bounded, PoisonTied;
    CellBase(p.o, obj, off);
    assert Then(p.o.desc, x) == CellOf(Then(p.o.desc, obj), off);
  }

  lemma CellBase(t: Tie, obj: nat, off: nat)
    requires Shape(t) && (obj, off) in t.st.cells && Distinct(t.desc) && t.desc != [] && t.desc[TOP] == Top
    ensures off != 0 && off != ANY_OFFSET && Then(t.desc, obj) != Top
  {
  }

  // ------------------------------------------------------------ one more image

  lemma MappedGrows(s: Tie, t: Tie, p: Plan, memo: Memo, x: nat, y: nat)
    requires Mapped(s, p, memo) && MemoShape(s, p, memo) && s.desc <= t.desc && y < |t.desc| && t.desc[y] == Image(p, x)
    ensures Mapped(t, p, memo[x := y])
  {
    hide Image;
  }

  lemma CoveredGrows(s: Tie, t: Tie, p: Plan, memo: Memo, x: nat, y: nat)
    requires Covered(s, p, memo) && x !in memo && s.desc <= t.desc
    requires forall z: nat :: |s.desc| <= z < |t.desc| ==> z == y || !Late(t.desc[z], p)
    ensures Covered(t, p, memo[x := y])
  {
    var memo' := memo[x := y];
    hide Late;
    forall z: nat | z < |t.desc| && Late(t.desc[z], p) ensures HasSource(memo', z) {
      if z == y {
        assert x in memo' && memo'[x] == z;
      } else {
        assert t.desc[z] == s.desc[z];
        var m: nat :| m in memo && memo[m] == z;
        assert m in memo' && memo'[m] == z;
      }
    }
  }

  /** Node `y` becomes the image of `x`; other new nodes are not of the shard. */
  lemma MidGrows(s: Tie, t: Tie, p: Plan, memo: Memo, x: nat, y: nat)
    requires Mid(s, p, memo) && MemoShape(s, p, memo) && x !in memo && Tied(t, Outer(p)) && s.desc <= t.desc
    requires y < |t.desc| && t.desc[y] == Image(p, x)
    requires forall z: nat :: |s.desc| <= z < |t.desc| ==> z == y || !Late(t.desc[z], p)
    ensures Mid(t, p, memo[x := y])
  {
    MidParts(s, p, memo);
    MappedGrows(s, t, p, memo, x, y);
    CoveredGrows(s, t, p, memo, x, y);
    MidIntro(t, p, memo[x := y]);
    hide *;
  }

  lemma MemoGrows(s: Tie, t: Tie, p: Plan, memo: Memo, x: nat, y: nat)
    requires MemoShape(s, p, memo) && x !in memo && s.desc <= t.desc && x < p.o.st.n && y < |t.desc|
    ensures MemoShape(t, p, memo[x := y]) && Extends(memo, memo[x := y])
  {
  }

  /** A step that adds one image and no constraint. */
  lemma ImageBrought(s: Snap, t: Snap, p: Plan, memo: Memo, x: nat, y: nat)
    requires Grown(s, t) && MemoShape(s.tie, p, memo) && x !in memo && x < p.o.st.n && y < |t.tie.desc|
    requires Small(t.tie) && Mid(s.tie, p, memo) ==>
               Built(s, t, Outer(p), Outer(p), Nothing(), {}) && t.tie.desc[y] == Image(p, x)
    requires forall z: nat :: |s.tie.desc| <= z < |t.tie.desc| ==> z == y || !Late(t.tie.desc[z], p)
    ensures Brings(s, t, p, memo, memo[x := y], Nothing(), {})
  {
    MemoGrows(s.tie, t.tie, p, memo, x, y);
    if Small(t.tie) && Mid(s.tie, p, memo) {
      MidParts(s.tie, p, memo);
      BuiltReached(s, t, Outer(p), Outer(p), Nothing(), {});
      MidGrows(s.tie, t.tie, p, memo, x, y);
    }
    hide Solid, Mid, Plus, ReadLists, PoisonNames, MemoShape, Built, Tied, Late, Image, Extends, Nothing;
  }

  lemma BuiltReached(s: Snap, t: Snap, b: Bounds, b': Bounds, ls: Lists<Desc>, ps: set<string>)
    requires Built(s, t, b, b', ls, ps) && Small(t.tie) && Tied(s.tie, b)
    ensures Tied(t.tie, b') && ReadLists(t.tie.desc, t.raw) == Plus(ReadLists(s.tie.desc, s.raw), ls)
    ensures PoisonNames(t.tie) == PoisonNames(s.tie) + ps
  {
    hide Solid, Tied, Plus, ReadLists, PoisonNames;
  }

  // ------------------------------------------------------------ constraints between images

  /** Recording a constraint between images. */
  lemma PutBrought(s: Snap, t: Snap, p: Plan, memo: Memo, memo': Memo, ls: Lists<Desc>, ps: set<string>,
                   kind: Kind, x: nat, y: nat)
    requires Brings(s, t, p, memo, memo', ls, ps) && x in memo' && y in memo'
    ensures Brings(s, t.(raw := Put(t.raw, kind, memo'[x], memo'[y])), p, memo, memo',
            Put(ls, kind, Image(p, x), Image(p, y)), ps)
  {
    BringsShape(s, t, p, memo, memo', ls, ps);
    PutReads(t.tie.desc, t.raw, kind, memo'[x], memo'[y]);
    PutPlus(ReadLists(s.tie.desc, s.raw), ls, kind, Image(p, x), Image(p, y));
    if Small(t.tie) && Mid(s.tie, p, memo) {
      MidParts(t.tie, p, memo');
      assert Then(t.tie.desc, memo'[x]) == Image(p, x) && Then(t.tie.desc, memo'[y]) == Image(p, y);
    }
    hide Shape, ListsIn, Mid, Plus, ReadLists, PoisonNames, MemoShape, Put, Image, Extends;
  }

  lemma BringsQuiet(s: Snap, t: Snap, u: Snap, p: Plan, memo: Memo, memo': Memo, memo'': Memo, ls: Lists<Desc>,
                    ps: set<string>)
    requires Brings(s, t, p, memo, memo', ls, ps) && Brings(t, u, p, memo', memo'', Nothing(), {})
    ensures Brings(s, u, p, memo, memo'', ls, ps)
  {
    BringsThen(s, t, u, p, memo, memo', memo'', ls, Nothing(), ps, {});
    PutIs(ls, Top, Top, 0);
    NoMore(ps);
    hide Brings, Plus;
  }

  // ------------------------------------------------------------ cells of the shard

  function Rank(l: Loc): nat {
    match l
    case Base(_) => 0
    case Field(o, _) => 1 + Rank(o)
  }

  ghost function RankOf(st: State, x: nat): nat {
    if x < |st.names| then Rank(st.names[x]) else 0
  }

  /** The object of a cell ranks below it. */
  lemma RankBelow(st: State, obj: nat, off: nat)
    requires Good(st) && (obj, off) in st.cells
    ensures obj < st.n && st.cells[(obj, off)] < st.n && RankOf(st, obj) < RankOf(st, st.cells[(obj, off)])
    ensures off != ANY_OFFSET && obj != TOP && off != 0
  {
    assert st.names[st.cells[(obj, off)]] == Field(st.names[obj], off);
    hide Marked;
  }

  /** Where a node is the cell of: its object and offset. */
  ghost predicate IsInverse(cells: map<(nat, nat), nat>, cellOf: map<nat, (nat, nat)>) {
    && (forall c: nat :: c in cellOf ==> cellOf[c] in cells && cells[cellOf[c]] == c)
    && (forall o: nat, off: nat :: (o, off) in cells ==> cells[(o, off)] in cellOf)
  }

  method Invert(cells: map<(nat, nat), nat>) returns (cellOf: map<nat, (nat, nat)>)
    ensures IsInverse(cells, cellOf)
  {
    cellOf := map[];
    var left := cells.Keys;
    while left != {}
      invariant left <= cells.Keys
      invariant forall c: nat :: c in cellOf ==> cellOf[c] in cells && cells[cellOf[c]] == c
      invariant forall k :: k in cells && k !in left ==> cells[k] in cellOf
      decreases |left|
    {
      var k :| k in left;
      left := left - {k};
      cellOf := cellOf[cells[k] := k];
    }
  }

  lemma PlainIs(st: State, cellOf: map<nat, (nat, nat)>, x: nat)
    requires IsInverse(st.cells, cellOf) && x !in cellOf
    ensures !IsCell(st, x)
  {
  }

  /** What a global of the shard stands for. */
  lemma GlobalImage(p: Plan, x: nat)
    requires Tied(p.o, Inner(p)) && x in p.o.names
    ensures Image(p, x) == GlobalOf(p.o.names[x])
  {
    TiedParts(p.o, Inner(p));
    hide Tied, Distinct, CellsTied, RegsTied, Bounded, PoisonTied;
  }

  /** New memo entries rank no higher than the node they were made for. */
  ghost predicate Lower(st: State, memo: Memo, memo': Memo, bound: nat) {
    forall m: nat :: m in memo' && m !in memo ==> m < |st.names| && Rank(st.names[m]) <= bound
  }

  // ------------------------------------------------------------ lists of the shard

  function ImagePairs(p: Plan, l: seq<(nat, nat)>): seq<(Desc, Desc)> {
    ShiftPairs(ReadPairs(p.o.desc, l), p.gb, p.ub)
  }

  function ImageTriples(p: Plan, l: seq<(nat, nat, nat)>): seq<(Desc, Desc, nat)> {
    ShiftTriples(ReadTriples(p.o.desc, l), p.gb, p.ub)
  }

  lemma ImagePairsSnoc(p: Plan, l: seq<(nat, nat)>, i: nat)
    requires i < |l|
    ensures ImagePairs(p, l[..i + 1]) == ImagePairs(p, l[..i]) + [(Image(p, l[i].0), Image(p, l[i].1))]
  {
    hide Shift;
  }

  lemma ImageTriplesSnoc(p: Plan, l: seq<(nat, nat, nat)>, i: nat)
    requires i < |l|
    ensures ImageTriples(p, l[..i + 1]) == ImageTriples(p, l[..i]) + [(Image(p, l[i].0), Image(p, l[i].1), l[i].2)]
  {
    hide Shift;
  }

  /** Constraints of one kind other than field accesses. */
  function OfPairs(kind: Kind, l: seq<(Desc, Desc)>): Lists<Desc> {
    match kind
    case Addr => Lists(l, [], [], [], [])
    case Copy => Lists([], l, [], [], [])
    case Gep(_) => Nothing()
    case Load => Lists([], [], [], l, [])
    case Store => Lists([], [], [], [], l)
  }

  function OfTriples(l: seq<(Desc, Desc, nat)>): Lists<Desc> {
    Lists([], [], l, [], [])
  }

  lemma PairPut(kind: Kind, l: seq<(Desc, Desc)>, x: Desc, y: Desc)
    requires !kind.Gep?
    ensures Plus(OfPairs(kind, l), Put(Nothing(), kind, x, y)) == OfPairs(kind, l + [(x, y)])
  {
  }

  lemma TriplePut(l: seq<(Desc, Desc, nat)>, x: Desc, y: Desc, off: nat)
    ensures Plus(OfTriples(l), Put(Nothing(), Gep(off), x, y)) == OfTriples(l + [(x, y, off)])
  {
  }

  /** The five lists together are the shard's constraints, shifted. */
  lemma ListsTogether(p: Plan, raw: Lists<nat>)
    ensures Plus(Plus(Plus(Plus(OfPairs(Addr, ImagePairs(p, raw.addr)), OfPairs(Copy, ImagePairs(p, raw.copies))),
                           OfTriples(ImageTriples(p, raw.geps))), OfPairs(Load, ImagePairs(p, raw.loads))),
                 OfPairs(Store, ImagePairs(p, raw.stores)))
         == ShiftLists(ReadLists(p.o.desc, raw), p.gb, p.ub)
  {
    hide ShiftPairs, ShiftTriples, ReadPairs, ReadTriples;
  }

  lemma NoPairs(p: Plan, kind: Kind)
    ensures OfPairs(kind, ImagePairs(p, [])) == Nothing() && OfTriples(ImageTriples(p, [])) == Nothing()
  {
  }

  // ------------------------------------------------------------ poison and registers of the shard

  ghost function ImageNames(p: Plan, s: set<nat>): set<string> {
    set x | x in s :: NameIn(Then(p.o.desc, x))
  }

  lemma ImageNamesPlus(p: Plan, s: set<nat>, x: nat)
    ensures ImageNames(p, s + {x}) == ImageNames(p, s) + {NameIn(Then(p.o.desc, x))}
    ensures ImageNames(p, {}) == {}
  {
  }

  /** Poisoning the image of a poisoned object. */
  lemma PoisonBrought(s: Snap, t: Snap, p: Plan, memo: Memo, memo': Memo, ls: Lists<Desc>, ps: set<string>, x: nat)
    requires Brings(s, t, p, memo, memo', ls, ps) && Shape(p.o) && x in p.o.st.poisoned && x in memo' && Good(t.tie.st)
    requires memo'[x] < t.tie.st.n
    ensures Shape(t.tie)
    ensures Brings(s, t.(tie := t.tie.(st := Poisoned(t.tie.st, memo'[x]))), p, memo, memo', ls,
            ps + {NameIn(Then(p.o.desc, x))})
  {
    hide Good, Unsolved, Poisoned, Tied, Mid, ListsIn, MemoShape, Covered, Mapped, ReadLists, Plus, PoisonNames,
      Extends, Solid, Brings;
    BringsShape(s, t, p, memo, memo', ls, ps);
    SolidShape(t);
    var u := t.(tie := t.tie.(st := Poisoned(t.tie.st, memo'[x])));
    PoisonedGood(t.tie.st, memo'[x]);
    PoisonSize(t.tie.st, memo'[x]);
    PoisonUnsolved(t.tie.st, memo'[x]);
    PoisonSolid(t, u);
    MemoFrame(t.tie, u.tie, p, memo');
    if Small(u.tie) && Mid(s.tie, p, memo) {
      BringsMid(s, t, p, memo, memo', ls, ps);
      MidPoisons(t.tie, p, memo', x);
    }
    PoisonStep(s, t, u, p, memo, memo', ls, ps, NameIn(Then(p.o.desc, x)));
  }

  lemma SolidShape(t: Snap)
    requires Solid(t)
    ensures Shape(t.tie) && |t.tie.st.pts| == t.tie.st.n && Unsolved(t.tie.st)
  {
  }

  lemma PoisonStep(s: Snap, t: Snap, u: Snap, p: Plan, memo: Memo, memo': Memo, ls: Lists<Desc>, ps: set<string>,
                   name: string)
    requires Brings(s, t, p, memo, memo', ls, ps) && Solid(u) && u.tie.st.n == t.tie.st.n && u.tie.desc == t.tie.desc
    requires u.raw == t.raw
    requires MemoShape(u.tie, p, memo')
    requires Small(u.tie) && Mid(s.tie, p, memo) ==>
               Mid(u.tie, p, memo') && PoisonNames(u.tie) == PoisonNames(t.tie) + {name}
    ensures Brings(s, u, p, memo, memo', ls, ps + {name})
  {
    hide Solid, Mid, MemoShape, ReadLists, Plus, PoisonNames, Extends;
    if Small(u.tie) && Mid(s.tie, p, memo) {
      assert PoisonNames(s.tie) + ps + {name} == PoisonNames(s.tie) + (ps + {name});
    }
  }

  lemma MemoFrame(t: Tie, u: Tie, p: Plan, memo: Memo)
    requires MemoShape(t, p, memo) && u.desc == t.desc
    ensures MemoShape(u, p, memo)
  {
  }

  lemma PoisonSize(st: State, o: nat)
    requires |st.pts| == st.n
    ensures Poisoned(st, o).n == st.n
  {
  }

  lemma PoisonUnsolved(st: State, o: nat)
    requires Unsolved(st) && |st.pts| == st.n
    ensures Unsolved(Poisoned(st, o))
  {
  }

  lemma PoisonSolid(t: Snap, u: Snap)
    requires Solid(t) && Good(u.tie.st) && u == t.(tie := t.tie.(st := u.tie.st)) && u.tie.st.n == t.tie.st.n
    requires Unsolved(u.tie.st)
    ensures Solid(u)
  {
    hide Good;
  }

  lemma MidPoisons(t: Tie, p: Plan, memo: Memo, x: nat)
    requires Mid(t, p, memo) && Shape(t) && Shape(p.o) && x in p.o.st.poisoned && x in memo && memo[x] < t.st.n
    ensures var u := t.(st := Poisoned(t.st, memo[x]));
            Mid(u, p, memo) && PoisonNames(u) == PoisonNames(t) + {NameIn(Then(p.o.desc, x))}
  {
    var u := t.(st := Poisoned(t.st, memo[x]));
    MidParts(t, p, memo);
    TiedParts(p.o, Inner(p));
    TiedParts(t, Outer(p));
    assert Then(p.o.desc, x).GlobalOf?;
    assert Then(t.desc, memo[x]) == Image(p, x);
    ShapeIs(t);
    hide Tied, Mid, Distinct, CellsTied, RegsTied, GlobalsTied, Bounded, PoisonTied, Shape, PoisonNames, Poisoned;
    PoisonedTied(t, memo[x], Outer(p));
    CoveredFrame(t, u, p, memo);
    MidIntro(u, p, memo);
  }

  lemma CoveredFrame(t: Tie, u: Tie, p: Plan, memo: Memo)
    requires Mapped(t, p, memo) && Covered(t, p, memo) && u.desc == t.desc
    ensures Mapped(u, p, memo) && Covered(u, p, memo)
  {
  }

  /** A register of the shard enters the table with its image. */
  lemma RegBrought(s: Snap, t: Snap, p: Plan, memo: Memo, memo': Memo, ls: Lists<Desc>, ps: set<string>, g: nat, r: nat)
    requires Brings(s, t, p, memo, memo', ls, ps) && (g, r) in p.o.regs && p.o.regs[(g, r)] in memo'
    ensures Brings(s, t.(tie := t.tie.(regs := t.tie.regs[(g + p.gb, r) := memo'[p.o.regs[(g, r)]]])), p, memo, memo',
            ls, ps)
  {
    BringsShape(s, t, p, memo, memo', ls, ps);
    var y := memo'[p.o.regs[(g, r)]];
    var u := t.(tie := t.tie.(regs := t.tie.regs[(g + p.gb, r) := y]));
    MemoFrame(t.tie, u.tie, p, memo');
    MemoAt(t.tie, p, memo', p.o.regs[(g, r)]);
    RegsSolid(t, (g + p.gb, r), y);
    OtherRegs(t.tie, u.tie.regs);
    if Small(u.tie) && Mid(s.tie, p, memo) {
      MidReg(t.tie, p, memo', g, r);
    }
    hide Solid, Tied, Mid, MemoShape, ReadLists, Plus, PoisonNames, Extends;
  }

  lemma MemoAt(t: Tie, p: Plan, memo: Memo, m: nat)
    requires MemoShape(t, p, memo) && m in memo
    ensures memo[m] < |t.desc|
  {
  }

  lemma RegsSolid(t: Snap, k: (nat, nat), y: nat)
    requires Solid(t) && y < |t.tie.desc|
    ensures Solid(t.(tie := t.tie.(regs := t.tie.regs[k := y])))
  {
    hide Good;
  }

  lemma MidReg(t: Tie, p: Plan, memo: Memo, g: nat, r: nat)
    requires Mid(t, p, memo) && (g, r) in p.o.regs && p.o.regs[(g, r)] in memo
    ensures Mid(t.(regs := t.regs[(g + p.gb, r) := memo[p.o.regs[(g, r)]]]), p, memo)
  {
    hide Tied, Mid, Distinct, CellsTied, RegsTied, GlobalsTied, Bounded, PoisonTied, Mapped, Covered;
    var x := p.o.regs[(g, r)];
    var u := t.(regs := t.regs[(g + p.gb, r) := memo[x]]);
    MidParts(t, p, memo);
    TiedParts(p.o, Inner(p));
    TiedParts(t, Outer(p));
    RegImage(t, p, memo, g, r);
    RegPut(t, p.gb, g + p.gb, r, memo[x]);
    OtherRegs(t, u.regs);
    CoveredFrame(t, u, p, memo);
    TiedIntro(u, Outer(p));
    MidIntro(u, p, memo);
  }

  lemma RegImage(t: Tie, p: Plan, memo: Memo, g: nat, r: nat)
    requires Mapped(t, p, memo) && RegsTied(p.o, p.on) && (g, r) in p.o.regs && p.o.regs[(g, r)] in memo
    ensures Then(t.desc, memo[p.o.regs[(g, r)]]) == RegOf(g + p.gb, r)
  {
    assert Then(p.o.desc, p.o.regs[(g, r)]) == RegOf(g, r);
  }

  lemma RegPut(t: Tie, known: nat, g: nat, r: nat, y: nat)
    requires RegsTied(t, known) && Then(t.desc, y) == RegOf(g, r)
    ensures RegsTied(t.(regs := t.regs[(g, r) := y]), known)
  {
  }

  // ------------------------------------------------------------ before and after

  lemma MidBefore(t: Tie, p: Plan)
    requires Tied(t, Bounds(p.gb, p.gb, p.ub, 0)) && Tied(p.o, Inner(p))
    ensures Mid(t, p, map[TOP := TOP])
  {
    var b := Bounds(p.gb, p.gb, p.ub, 0);
    TiedParts(t, b);
    TiedParts(p.o, Inner(p));
    hide Distinct, CellsTied, RegsTied, GlobalsTied, PoisonTied, Tied;
    forall y: nat | y < |t.desc| ensures Allowed(t.desc[y], b) && Allowed(t.desc[y], Outer(p)) && !Late(t.desc[y], p) {
    }
    TiedIntro(t, Outer(p));
    MidIntro(t, p, map[TOP := TOP]);
  }

  ghost predicate RegsMoved(t: Tie, p: Plan) {
    forall g: nat, r: nat :: (g, r) in p.o.regs ==> (g + p.gb, r) in t.regs
  }

  lemma RegHere(t: Tie, p: Plan, memo: Memo, y: nat)
    requires Mid(t, p, memo) && MemoShape(t, p, memo) && Shape(p.o) && RegsMoved(t, p)
    requires y < |t.desc| && t.desc[y].RegOf? && t.desc[y].g >= p.gb
    ensures (t.desc[y].g, t.desc[y].r) in t.regs
  {
    MidParts(t, p, memo);
    TiedParts(p.o, Inner(p));
    ShapeIs(p.o);
    hide Tied, Mid, Shape, Distinct, CellsTied, GlobalsTied, PoisonTied;
    assert HasSource(memo, y);
    var m: nat :| m in memo && memo[m] == y;
    assert Image(p, m) == t.desc[y];
    var d := p.o.desc[m];
    assert Allowed(d, Inner(p));
    assert (d.g, d.r) in p.o.regs;
    assert d.g + p.gb == t.desc[y].g;
  }

  lemma RegsAfter(t: Tie, p: Plan, memo: Memo)
    requires Mid(t, p, memo) && MemoShape(t, p, memo) && Shape(p.o) && RegsMoved(t, p) && RegsTied(t, p.gb)
    ensures RegsTied(t, p.gb + p.on)
  {
    hide Mid, MemoShape, Shape, RegsMoved, Then;
    forall x: nat | x < |t.desc| && t.desc[x].RegOf? && t.desc[x].g < p.gb + p.on
      ensures (t.desc[x].g, t.desc[x].r) in t.regs
    {
      if t.desc[x].g >= p.gb {
        RegHere(t, p, memo, x);
      }
    }
  }

  /** When the registers are in, the builder is in order for the modules of both. */
  lemma TiedAfter(t: Tie, p: Plan, memo: Memo)
    requires Mid(t, p, memo) && MemoShape(t, p, memo) && Shape(p.o) && RegsMoved(t, p)
    ensures Tied(t, Bounds(p.gb + p.on, p.gb + p.on, p.ub + p.ou, 0))
  {
    hide Tied, Mid, Shape, MemoShape, Distinct, CellsTied, GlobalsTied, PoisonTied, RegsTied, RegsMoved;
    MidParts(t, p, memo);
    TiedParts(t, Outer(p));
    RegsAfter(t, p, memo);
    var b := Bounds(p.gb + p.on, p.gb + p.on, p.ub + p.ou, 0);
    assert Bounded(t.desc, b);
    TiedIntro(t, b);
  }
}
