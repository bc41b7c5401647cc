/**
 The difference-bound domain (crates/absint/src/zone.rs) over unbounded integers: `m[i][j]` bounds `v[j] - v[i]`, node 0
 is zero. Closing is exact, decides emptiness, and makes projection, inclusion and equality exact as well.
 */
module Zones {
  import opened Wrappers

  /** `None` is no bound at all. */
  type Bnd = Option<int>

  type Matrix = seq<seq<Bnd>>

  function BAdd(a: Bnd, b: Bnd): Bnd {
    if a.Some? && b.Some? then Some(a.value + b.value) else None
  }

  function BMin(a: Bnd, b: Bnd): Bnd {
    if a.None? then b else if b.None? then a else if a.value <= b.value then a else b
  }

  function BMax(a: Bnd, b: Bnd): Bnd {
    if a.None? || b.None? then None else if a.value <= b.value then b else a
  }

  predicate BLe(a: Bnd, b: Bnd) {
    b.None? || (a.Some? && a.value <= b.value)
  }

  predicate Square(m: Matrix) {
    forall i :: 0 <= i < |m| ==> |m[i]| == |m|
  }

  function At(m: Matrix, i: nat, j: nat): Bnd
    requires Square(m) && i < |m| && j < |m|
  {
    m[i][j]
  }

  function Put(m: Matrix, i: nat, j: nat, b: Bnd): (r: Matrix)
    requires Square(m) && i < |m| && j < |m|
    ensures Square(r) && |r| == |m|
  {
    m[i := m[i][j := b]]
  }

  datatype Zone = Zone(m: Matrix, bottom: bool)

  /** The shape of every zone over `n - 1` variables. */
  predicate Sized(z: Zone, n: nat) {
    0 < n && (z.bottom || (Square(z.m) && |z.m| == n))
  }

  function TopZone(nvars: nat): (z: Zone)
    ensures Sized(z, nvars + 1)
  {
    Zone(seq(nvars + 1, i => seq(nvars + 1, j => if i == j then Some(0) else None)), false)
  }

  const BottomZone: Zone := Zone([], true)

  // ------------------------------------------------------------- meaning

  predicate Obeys(b: Bnd, d: int) {
    b.Some? ==> d <= b.value
  }

  /** A valuation of the nodes that meets every bound. */
  ghost predicate Sat(m: Matrix, v: seq<int>)
    requires Square(m)
  {
    |v| == |m| && forall i: nat, j: nat :: i < |m| && j < |m| ==> Obeys(At(m, i, j), v[j] - v[i])
  }

  /** The valuations a zone stands for; the zero node is zero. */
  ghost predicate In(z: Zone, v: seq<int>) {
    !z.bottom && Square(z.m) && 0 < |z.m| && Sat(z.m, v) && v[0] == 0
  }

  // ------------------------------------------------------ Floyd-Warshall

  /** Row `i` after its first `j` columns have been tightened through `k`. */
  function RelaxJ(m: Matrix, k: nat, i: nat, j: nat): (r: Matrix)
    requires Square(m) && k < |m| && i < |m| && j <= |m|
    ensures Square(r) && |r| == |m|
  {
    if j == 0 then m
    else
      var p := RelaxJ(m, k, i, j - 1);
      Put(p, i, j - 1, BMin(At(p, i, j - 1), BAdd(At(p, i, k), At(p, k, j - 1))))
  }

  /** The first `i` rows tightened through `k`. */
  function RelaxI(m: Matrix, k: nat, i: nat): (r: Matrix)
    requires Square(m) && k < |m| && i <= |m|
    ensures Square(r) && |r| == |m|
  {
    if i == 0 then m else RelaxJ(RelaxI(m, k, i - 1), k, i - 1, |m|)
  }

  /** All rows tightened through the first `k` nodes. */
  function RelaxK(m: Matrix, k: nat): (r: Matrix)
    requires Square(m) && k <= |m|
    ensures Square(r) && |r| == |m|
  {
    if k == 0 then m else RelaxI(RelaxK(m, k - 1), k - 1, |m|)
  }

  predicate NegativeAt(m: Matrix, i: nat)
    requires Square(m) && i < |m|
  {
    At(m, i, i).Some? && At(m, i, i).value < 0
  }

  predicate NegativeDiagonal(m: Matrix)
    requires Square(m)
  {
    exists i: nat :: i < |m| && NegativeAt(m, i)
  }

  function Closing(m: Matrix): Zone
    requires Square(m)
  {
    Zone(RelaxK(m, |m|), NegativeDiagonal(RelaxK(m, |m|)))
  }

  /** Pointwise order on matrices. */
  ghost predicate Below(a: Matrix, b: Matrix)
    requires Square(a) && Square(b) && |a| == |b|
  {
    forall i: nat, j: nat :: i < |a| && j < |a| ==> BLe(At(a, i, j), At(b, i, j))
  }

  lemma TightenKeeps(m: Matrix, k: nat, i: nat, j: nat)
    requires Square(m) && k < |m| && i < |m| && j < |m|
    ensures var r := Put(m, i, j, BMin(At(m, i, j), BAdd(At(m, i, k), At(m, k, j))));
            Below(r, m) && forall v :: Sat(r, v) <==> Sat(m, v)
  {
    var r := Put(m, i, j, BMin(At(m, i, j), BAdd(At(m, i, k), At(m, k, j))));
    forall v | Sat(m, v) ensures Sat(r, v) {
      assert Obeys(At(m, i, k), v[k] - v[i]) && Obeys(At(m, k, j), v[j] - v[k]) && Obeys(At(m, i, j), v[j] - v[i]);
      forall a: nat, b: nat | a < |m| && b < |m| ensures Obeys(At(r, a, b), v[b] - v[a]) {
        assert (a, b) != (i, j) ==> At(r, a, b) == At(m, a, b);
      }
    }
    forall a: nat, b: nat | a < |m| && b < |m| ensures BLe(At(r, a, b), At(m, a, b)) {
    }
    forall v | Sat(r, v) ensures Sat(m, v) {
      BelowSat(r, m, v);
    }
  }

  lemma BelowSat(a: Matrix, b: Matrix, v: seq<int>)
    requires Square(a) && Square(b) && |a| == |b| && Below(a, b) && Sat(a, v)
    ensures Sat(b, v)
  {
    forall i: nat, j: nat | i < |b| && j < |b| ensures Obeys(At(b, i, j), v[j] - v[i]) {
      assert BLe(At(a, i, j), At(b, i, j)) && Obeys(At(a, i, j), v[j] - v[i]);
    }
  }

  lemma BelowTrans(a: Matrix, b: Matrix, c: Matrix)
    requires Square(a) && Square(b) && Square(c) && |a| == |b| == |c| && Below(a, b) && Below(b, c)
    ensures Below(a, c)
  {
    forall i: nat, j: nat | i < |a| && j < |a| ensures BLe(At(a, i, j), At(c, i, j)) {
      assert BLe(At(a, i, j), At(b, i, j)) && BLe(At(b, i, j), At(c, i, j));
    }
  }

  /** The same solutions, no bound loosened. */
  ghost predicate Tightened(r: Matrix, m: Matrix) {
    Square(r) && Square(m) && |r| == |m| && Below(r, m) && forall v :: Sat(r, v) <==> Sat(m, v)
  }

  lemma TightenStep(m: Matrix, k: nat, i: nat, j: nat)
    requires Square(m) && k < |m| && i < |m| && j < |m|
    ensures Tightened(Put(m, i, j, BMin(At(m, i, j), BAdd(At(m, i, k), At(m, k, j)))), m)
  {
    TightenKeeps(m, k, i, j);
  }

  lemma TightenedTrans(a: Matrix, b: Matrix, c: Matrix)
    requires Tightened(a, b) && Tightened(b, c)
    ensures Tightened(a, c)
  {
    BelowTrans(a, b, c);
  }

  lemma TightenedRefl(m: Matrix)
    requires Square(m)
    ensures Tightened(m, m)
  {
  }

  lemma {:induction false} RelaxJKeeps(m: Matrix, k: nat, i: nat, j: nat)
    requires Square(m) && k < |m| && i < |m| && j <= |m|
    ensures Tightened(RelaxJ(m, k, i, j), m)
  {
    hide Tightened, Sat, Below;
    if j == 0 {
      TightenedRefl(m);
    } else {
      RelaxJKeeps(m, k, i, j - 1);
      TightenStep(RelaxJ(m, k, i, j - 1), k, i, j - 1);
      TightenedTrans(RelaxJ(m, k, i, j), RelaxJ(m, k, i, j - 1), m);
    }
  }

  lemma {:induction false} RelaxIKeeps(m: Matrix, k: nat, i: nat)
    requires Square(m) && k < |m| && i <= |m|
    ensures Tightened(RelaxI(m, k, i), m)
  {
    hide Tightened, Sat, Below;
    if i == 0 {
      TightenedRefl(m);
    } else {
      RelaxIKeeps(m, k, i - 1);
      RelaxJKeeps(RelaxI(m, k, i - 1), k, i - 1, |m|);
      TightenedTrans(RelaxI(m, k, i), RelaxI(m, k, i - 1), m);
    }
  }

  /** Closing never changes the solutions. */
  lemma {:induction false} RelaxKKeeps(m: Matrix, k: nat)
    requires Square(m) && k <= |m|
    ensures Tightened(RelaxK(m, k), m)
  {
    hide Tightened, Sat, Below;
    if k == 0 {
      TightenedRefl(m);
    } else {
      RelaxKKeeps(m, k - 1);
      RelaxIKeeps(RelaxK(m, k - 1), k - 1, |m|);
      TightenedTrans(RelaxK(m, k), RelaxK(m, k - 1), m);
    }
  }

  // ------------------------------------------------------------- closure

  /** The bound after one round through `k`, computed from the old matrix alone. */
  function Through(m: Matrix, k: nat, i: nat, j: nat): Bnd
    requires Square(m) && k < |m| && i < |m| && j < |m|
  {
    BMin(At(m, i, j), BAdd(At(m, i, k), At(m, k, j)))
  }

  /** While `k` has no negative loop, row and column `k` stand still, so working in place changes nothing. */
  lemma {:induction false} RoundShapeJ(m: Matrix, p: Matrix, k: nat, i: nat, j: nat)
    requires Square(m) && Square(p) && |p| == |m| && k < |m| && i < |m| && j <= |m| && !NegativeAt(m, k)
    requires forall a: nat, b: nat :: a < |m| && b < |m| ==>
               At(p, a, b) == if a < i then Through(m, k, a, b) else At(m, a, b)
    ensures forall a: nat, b: nat :: a < |m| && b < |m| ==>
              At(RelaxJ(p, k, i, j), a, b) ==
              if a < i || (a == i && b < j) then Through(m, k, a, b) else At(m, a, b)
  {
    if j > 0 {
      RoundShapeJ(m, p, k, i, j - 1);
      var q := RelaxJ(p, k, i, j - 1);
      assert At(q, i, k) == At(m, i, k);
      assert At(q, k, j - 1) == At(m, k, j - 1);
      assert At(q, i, j - 1) == At(m, i, j - 1);
      assert forall a: nat, b: nat :: a < |m| && b < |m| && (a, b) != (i, j - 1 as nat) ==>
          At(RelaxJ(p, k, i, j), a, b) == At(q, a, b);
    }
  }

  lemma {:induction false} RoundShape(m: Matrix, k: nat, i: nat)
    requires Square(m) && k < |m| && i <= |m| && !NegativeAt(m, k)
    ensures forall a: nat, b: nat :: a < |m| && b < |m| ==>
              At(RelaxI(m, k, i), a, b) == if a < i then Through(m, k, a, b) else At(m, a, b)
  {
    if i > 0 {
      RoundShape(m, k, i - 1);
      RoundShapeJ(m, RelaxI(m, k, i - 1), k, i - 1, |m|);
    }
  }

  /** The triangle inequality through `a`. */
  ghost predicate Triangle(m: Matrix, i: nat, a: nat, j: nat)
    requires Square(m) && i < |m| && a < |m| && j < |m|
  {
    BLe(At(m, i, j), BAdd(At(m, i, a), At(m, a, j)))
  }

  ghost predicate TrianglesTo(m: Matrix, k: nat)
    requires Square(m) && k <= |m|
  {
    forall i: nat, a: nat, j: nat :: i < |m| && a < k && j < |m| ==> Triangle(m, i, a, j)
  }

  lemma RoundTriangle(m: Matrix, k: nat, i: nat, a: nat, j: nat)
    requires Square(m) && k < |m| && i < |m| && a < |m| && j < |m| && !NegativeAt(m, k)
    requires a != k ==> Triangle(m, i, a, j) && Triangle(m, i, a, k) && Triangle(m, k, a, j) && Triangle(m, k, a, k)
    ensures BLe(Through(m, k, i, j), BAdd(Through(m, k, i, a), Through(m, k, a, j)))
  {
  }

  lemma RoundTriangles(m: Matrix, k: nat)
    requires Square(m) && k < |m| && !NegativeAt(m, k) && TrianglesTo(m, k)
    ensures TrianglesTo(RelaxI(m, k, |m|), k + 1)
  {
    var r := RelaxI(m, k, |m|);
    RoundShape(m, k, |m|);
    hide Through, BLe, BAdd, BMin;
    forall i: nat, a: nat, j: nat | i < |m| && a < k + 1 && j < |m| ensures Triangle(r, i, a, j) {
      if a < k {
        assert Triangle(m, i, a, j) && Triangle(m, i, a, k) && Triangle(m, k, a, j) && Triangle(m, k, a, k);
      }
      RoundTriangle(m, k, i, a, j);
    }
  }

  ghost predicate Closed(m: Matrix)
    requires Square(m)
  {
    TrianglesTo(m, |m|) && forall i: nat :: i < |m| ==> !NegativeAt(m, i)
  }

  /** A negative diagonal entry stays negative. */
  lemma NegativeStays(m: Matrix, k: nat)
    requires Square(m) && 0 < k <= |m|
    ensures NegativeDiagonal(RelaxK(m, k - 1)) ==> NegativeDiagonal(RelaxK(m, k))
  {
    var p := RelaxK(m, k - 1);
    RelaxIKeeps(p, k - 1, |m|);
    if NegativeDiagonal(p) {
      var i: nat :| i < |p| && NegativeAt(p, i);
      assert BLe(At(RelaxK(m, k), i, i), At(p, i, i));
      assert NegativeAt(RelaxK(m, k), i);
    }
  }

  lemma {:induction false} RoundsTriangles(m: Matrix, k: nat)
    requires Square(m) && k <= |m| && !NegativeDiagonal(RelaxK(m, k))
    ensures TrianglesTo(RelaxK(m, k), k)
  {
    if k > 0 {
      var p := RelaxK(m, k - 1);
      NegativeStays(m, k);
      assert !NegativeAt(p, k - 1);
      RoundsTriangles(m, k - 1);
      RoundTriangles(p, k - 1);
    }
  }

  /** When no diagonal goes negative, closing leaves a triangle-closed matrix. */
  lemma ClosingCloses(m: Matrix)
    requires Square(m) && !Closing(m).bottom
    ensures Square(Closing(m).m) && Closed(Closing(m).m)
  {
    RoundsTriangles(m, |m|);
  }

  // ---------------------------------------------- solutions of closed zones

  /** The bounds among the nodes of `s`. */
  ghost predicate SatOn(m: Matrix, v: seq<int>, s: set<nat>)
    requires Square(m) && |v| == |m|
  {
    forall i: nat, j: nat :: i in s && j in s && i < |m| && j < |m| ==> Obeys(At(m, i, j), v[j] - v[i])
  }

  /** `x` is the largest lower bound that the first `n` nodes of `s` put on node `k`, or there is none. */
  ghost predicate BestLower(m: Matrix, v: seq<int>, s: set<nat>, k: nat, n: nat, x: Option<int>)
    requires Square(m) && |v| == |m| && k < |m| && n <= |m|
  {
    && (forall j: nat :: j < n && j in s && At(m, k, j).Some? ==> x.Some? && v[j] - At(m, k, j).value <= x.value)
    && (x.Some? ==> exists j: nat :: j < n && j in s && At(m, k, j).Some? && x.value == v[j] - At(m, k, j).value)
  }

  lemma {:induction false} FindLower(m: Matrix, v: seq<int>, s: set<nat>, k: nat, n: nat) returns (x: Option<int>)
    requires Square(m) && |v| == |m| && k < |m| && n <= |m|
    ensures BestLower(m, v, s, k, n, x)
  {
    if n == 0 {
      x := None;
    } else {
      x := FindLower(m, v, s, k, n - 1);
      var j := n - 1;
      if j in s && At(m, k, j).Some? && (x.None? || v[j] - At(m, k, j).value > x.value) {
        x := Some(v[j] - At(m, k, j).value);
      }
    }
  }

  ghost predicate BestUpper(m: Matrix, v: seq<int>, s: set<nat>, k: nat, n: nat, x: Option<int>)
    requires Square(m) && |v| == |m| && k < |m| && n <= |m|
  {
    forall i: nat :: i < n && i in s && At(m, i, k).Some? ==> x.Some? && x.value <= v[i] + At(m, i, k).value
  }

  lemma {:induction false} FindUpper(m: Matrix, v: seq<int>, s: set<nat>, k: nat, n: nat) returns (x: Option<int>)
    requires Square(m) && |v| == |m| && k < |m| && n <= |m|
    ensures BestUpper(m, v, s, k, n, x)
  {
    if n == 0 {
      x := None;
    } else {
      x := FindUpper(m, v, s, k, n - 1);
      var i := n - 1;
      if i in s && At(m, i, k).Some? && (x.None? || v[i] + At(m, i, k).value < x.value) {
        x := Some(v[i] + At(m, i, k).value);
      }
    }
  }

  /** In a closed matrix every partial solution extends by one more node. */
  lemma ExtendByOne(m: Matrix, v: seq<int>, s: set<nat>, k: nat) returns (x: int)
    requires Square(m) && Closed(m) && |v| == |m| && k < |m| && k !in s && SatOn(m, v, s)
    ensures SatOn(m, v[k := x], s + {k})
  {
    var lo := FindLower(m, v, s, k, |m|);
    var hi := FindUpper(m, v, s, k, |m|);
    x := if lo.Some? then lo.value else if hi.Some? then hi.value else 0;
    forall i: nat | i < |m| && i in s ensures Obeys(At(m, i, k), x - v[i]) && Obeys(At(m, k, i), v[i] - x) {
      if lo.Some? {
        var j: nat :| j < |m| && j in s && At(m, k, j).Some? && lo.value == v[j] - At(m, k, j).value;
        assert Triangle(m, i, k, j) && Obeys(At(m, i, j), v[j] - v[i]);
      }
    }
    assert !NegativeAt(m, k);
  }

  /** The nodes below `n`, and those of `s`, can be given values that extend `v` on `s`. */
  lemma {:induction false} ExtendAll(m: Matrix, v: seq<int>, s: set<nat>, n: nat) returns (w: seq<int>)
    requires Square(m) && Closed(m) && |v| == |m| && n <= |m| && SatOn(m, v, s)
    ensures |w| == |m| && forall i: nat :: i in s && i < |m| ==> w[i] == v[i]
    ensures SatOn(m, w, s + Upto(n))
  {
    if n == 0 {
      w := v;
      assert s + Upto(0) == s;
    } else {
      w := ExtendAll(m, v, s, n - 1);
      var t := s + Upto(n - 1);
      if n - 1 in t {
        assert s + Upto(n) == t;
      } else {
        var x := ExtendByOne(m, w, t, n - 1);
        w := w[n - 1 := x];
        assert s + Upto(n) == t + {n - 1};
      }
    }
  }

  lemma SatOnAll(m: Matrix, w: seq<int>, s: set<nat>)
    requires Square(m) && |w| == |m| && SatOn(m, w, s) && forall i: nat :: i < |m| ==> i in s
    ensures Sat(m, w)
  {
  }

  function Shift(v: seq<int>, d: int): (w: seq<int>)
    ensures |w| == |v| && forall i :: 0 <= i < |v| ==> w[i] == v[i] - d
  {
    seq(|v|, i requires 0 <= i < |v| => v[i] - d)
  }

  lemma ShiftSat(m: Matrix, v: seq<int>, d: int)
    requires Square(m) && Sat(m, v)
    ensures Sat(m, Shift(v, d))
  {
    forall i: nat, j: nat | i < |m| && j < |m| ensures Obeys(At(m, i, j), Shift(v, d)[j] - Shift(v, d)[i]) {
      assert Obeys(At(m, i, j), v[j] - v[i]);
    }
  }

  /** A partial solution of a closed matrix extends to a valuation whose zero node is zero. */
  lemma Completes(m: Matrix, v: seq<int>, s: set<nat>) returns (w: seq<int>, d: int)
    requires Square(m) && Closed(m) && 0 < |m| == |v| && SatOn(m, v, s)
    ensures Sat(m, w) && w[0] == 0 && forall i: nat :: i in s && i < |m| ==> w[i] == v[i] - d
    ensures 0 in s ==> d == v[0]
  {
    var u := ExtendAll(m, v, s, |m|);
    UptoHas(|m|);
    SatOnAll(m, u, s + Upto(|m|));
    d := u[0];
    w := Shift(u, d);
    ShiftSat(m, u, d);
  }

  lemma NegativeUnsat(m: Matrix, i: nat, v: seq<int>)
    requires Square(m) && i < |m| && NegativeAt(m, i)
    ensures !Sat(m, v)
  {
  }

  /** A closed zone is never empty: closing sets `bottom` exactly when no valuation satisfies the matrix. */
  lemma BottomExactly(m: Matrix)
    requires Square(m) && 0 < |m|
    ensures Closing(m).bottom <==> !exists v :: Sat(m, v) && v[0] == 0
  {
    RelaxKKeeps(m, |m|);
    var r := RelaxK(m, |m|);
    if NegativeDiagonal(r) {
      var i: nat :| i < |r| && NegativeAt(r, i);
      forall v ensures !Sat(m, v) {
        NegativeUnsat(r, i, v);
      }
    } else {
      ClosingCloses(m);
      var w, d := Completes(r, seq(|m|, _ => 0), {});
      assert Sat(m, w);
    }
  }

  // -------------------------------------------------------- the operations

  /** Tighten with `v[a] - v[b] <= c`, then close again. */
  function AddConstraint(z: Zone, a: nat, b: nat, c: int): (r: Zone)
    requires Shaped(z)
    ensures Shaped(r)
  {
    if z.bottom || a >= |z.m| || b >= |z.m| then z
    else Closing(Put(z.m, b, a, BMin(At(z.m, b, a), Some(c))))
  }

  lemma AddConstraintSized(z: Zone, a: nat, b: nat, c: int, n: nat)
    requires Sized(z, n)
    ensures Sized(AddConstraint(z, a, b, c), n)
  {
  }

  lemma PutMinSat(m: Matrix, a: nat, b: nat, c: int, v: seq<int>)
    requires Square(m) && a < |m| && b < |m|
    ensures Sat(Put(m, b, a, BMin(At(m, b, a), Some(c))), v) <==> Sat(m, v) && v[a] - v[b] <= c
  {
    var r := Put(m, b, a, BMin(At(m, b, a), Some(c)));
    if Sat(r, v) {
      forall i: nat, j: nat | i < |m| && j < |m| ensures Obeys(At(m, i, j), v[j] - v[i]) {
        assert Obeys(At(r, i, j), v[j] - v[i]);
      }
      assert Obeys(At(r, b, a), v[a] - v[b]);
    }
    if Sat(m, v) && v[a] - v[b] <= c {
      forall i: nat, j: nat | i < |m| && j < |m| ensures Obeys(At(r, i, j), v[j] - v[i]) {
        assert Obeys(At(m, i, j), v[j] - v[i]);
      }
    }
  }

  /** `AddConstraint` is exactly intersection with the half-space; the result is closed or empty. */
  lemma AddConstraintExact(z: Zone, a: nat, b: nat, c: int, n: nat, v: seq<int>)
    requires Sized(z, n) && a < n && b < n
    ensures In(AddConstraint(z, a, b, c), v) <==> In(z, v) && v[a] - v[b] <= c
    ensures !AddConstraint(z, a, b, c).bottom ==>
              Square(AddConstraint(z, a, b, c).m) && Closed(AddConstraint(z, a, b, c).m)
  {
    if !z.bottom {
      var m := Put(z.m, b, a, BMin(At(z.m, b, a), Some(c)));
      PutMinSat(z.m, a, b, c, v);
      RelaxKKeeps(m, |m|);
      BottomExactly(m);
      if !Closing(m).bottom {
        ClosingCloses(m);
      }
    }
  }

  /** The zone is empty afterwards exactly when no member met the constraint. */
  lemma AddConstraintEmpty(z: Zone, a: nat, b: nat, c: int, n: nat)
    requires Sized(z, n) && !z.bottom && a < n && b < n
    ensures AddConstraint(z, a, b, c).bottom <==> !exists v :: In(z, v) && v[a] - v[b] <= c
  {
    var m := Put(z.m, b, a, BMin(At(z.m, b, a), Some(c)));
    BottomExactly(m);
    if Closing(m).bottom {
      forall v | In(z, v) && v[a] - v[b] <= c ensures false {
        PutMinSat(z.m, a, b, c, v);
      }
    } else {
      var v :| Sat(m, v) && v[0] == 0;
      PutMinSat(z.m, a, b, c, v);
      assert In(z, v);
    }
  }

  /** Drop every bound on variable `k`. */
  function Forget(z: Zone, k: nat): (r: Zone)
    requires Shaped(z)
    ensures Shaped(r)
  {
    if z.bottom || k == 0 || k >= |z.m| then z
    else Zone(ForgetM(z.m, k), false)
  }

  function ForgetM(m: Matrix, k: nat): (r: Matrix)
    requires Square(m) && k < |m|
    ensures Square(r) && |r| == |m|
    ensures forall i: nat, j: nat :: i < |m| && j < |m| ==> At(r, i, j) == ForgetCell(m, k, i, j)
  {
    seq(|m|, i requires 0 <= i < |m| => seq(|m|, j requires 0 <= j < |m| => ForgetCell(m, k, i, j)))
  }

  function ForgetCell(m: Matrix, k: nat, i: nat, j: nat): Bnd
    requires Square(m) && k < |m| && i < |m| && j < |m|
  {
    if i == k && j == k then Some(0) else if i == k || j == k then None else At(m, i, j)
  }

  /** Forgetting never loses a valuation, whatever the variable becomes. */
  lemma ForgetSound(z: Zone, k: nat, v: seq<int>, x: int, n: nat)
    requires Sized(z, n) && 0 < k < n && In(z, v)
    ensures In(Forget(z, k), v[k := x])
  {
    var r := ForgetM(z.m, k);
    forall i: nat, j: nat | i < n && j < n ensures Obeys(At(r, i, j), v[k := x][j] - v[k := x][i]) {
      assert Obeys(At(z.m, i, j), v[j] - v[i]);
    }
  }

  ghost predicate InWith(z: Zone, v: seq<int>, k: nat, x: int) {
    k < |v| && In(z, v[k := x])
  }

  /** On a closed zone forgetting is exactly projection. */
  lemma ForgetExact(z: Zone, k: nat, n: nat, v: seq<int>)
    requires Sized(z, n) && !z.bottom && Closed(z.m) && 0 < k < n
    ensures In(Forget(z, k), v) <==> |v| == n && exists x :: InWith(z, v, k, x)
  {
    var r := ForgetM(z.m, k);
    if In(Forget(z, k), v) {
      UptoHas(n);
      var s := Upto(n) - {k};
      forall i: nat, j: nat | i in s && j in s && i < n && j < n ensures Obeys(At(z.m, i, j), v[j] - v[i]) {
        assert Obeys(At(r, i, j), v[j] - v[i]);
      }
      var x := ExtendByOne(z.m, v, s, k);
      SatOnAll(z.m, v[k := x], s + {k});
      assert InWith(z, v, k, x);
    }
    if |v| == n && exists x :: InWith(z, v, k, x) {
      var x :| InWith(z, v, k, x);
      ForgetSound(z, k, v[k := x], v[k], n);
      assert v[k := x][k := v[k]] == v;
    }
  }

  lemma ForgetClosed(z: Zone, k: nat, n: nat)
    requires Sized(z, n) && !z.bottom && Closed(z.m) && 0 < k < n
    ensures Closed(Forget(z, k).m)
  {
    var m, r := z.m, ForgetM(z.m, k);
    forall i: nat, a: nat, j: nat | i < n && a < n && j < n ensures Triangle(r, i, a, j) {
      assert Triangle(m, i, a, j);
    }
    forall i: nat | i < n ensures !NegativeAt(r, i) {
      assert !NegativeAt(m, i);
    }
  }

  /** Shift variable `k` by `c`. */
  function Translate(z: Zone, k: nat, c: int): (r: Zone)
    requires Shaped(z)
    ensures Shaped(r)
  {
    if z.bottom || k == 0 || k >= |z.m| then z
    else Zone(TranslateM(z.m, k, c), false)
  }

  function TranslateM(m: Matrix, k: nat, c: int): (r: Matrix)
    requires Square(m) && k < |m|
    ensures Square(r) && |r| == |m|
    ensures forall i: nat, j: nat :: i < |m| && j < |m| ==> At(r, i, j) == TranslateCell(m, k, c, i, j)
  {
    seq(|m|, i requires 0 <= i < |m| => seq(|m|, j requires 0 <= j < |m| => TranslateCell(m, k, c, i, j)))
  }

  function TranslateCell(m: Matrix, k: nat, c: int, i: nat, j: nat): Bnd
    requires Square(m) && k < |m| && i < |m| && j < |m|
  {
    if i == j then At(m, i, j)
    else if j == k then BAdd(At(m, i, j), Some(c))
    else if i == k then BAdd(At(m, i, j), Some(-c))
    else At(m, i, j)
  }

  /** Translation is exactly the image of `v[k] := v[k] + c`, closed or not. */
  lemma TranslateExact(z: Zone, k: nat, c: int, n: nat, v: seq<int>)
    requires Sized(z, n) && 0 < k < n && |v| == n
    ensures In(Translate(z, k, c), v) <==> In(z, v[k := v[k] - c])
  {
    if !z.bottom {
      var r := TranslateM(z.m, k, c);
      var u := v[k := v[k] - c];
      forall i: nat, j: nat | i < n && j < n
        ensures Obeys(At(r, i, j), v[j] - v[i]) <==> Obeys(At(z.m, i, j), u[j] - u[i])
      {
      }
    }
  }

  lemma TranslateClosed(z: Zone, k: nat, c: int, n: nat)
    requires Sized(z, n) && !z.bottom && Closed(z.m) && 0 < k < n
    ensures Closed(Translate(z, k, c).m)
  {
    var m, r := z.m, TranslateM(z.m, k, c);
    forall i: nat, a: nat, j: nat | i < n && a < n && j < n ensures Triangle(r, i, a, j) {
      assert Triangle(m, i, a, j) && !NegativeAt(m, i) && !NegativeAt(m, k) && !NegativeAt(m, j);
    }
    forall i: nat | i < n ensures !NegativeAt(r, i) {
      assert !NegativeAt(m, i);
    }
  }

  function Combine(a: Matrix, b: Matrix, op: (Bnd, Bnd) -> Bnd): (r: Matrix)
    requires Square(a) && Square(b) && |a| == |b|
    ensures Square(r) && |r| == |a|
    ensures forall i: nat, j: nat :: i < |a| && j < |a| ==> At(r, i, j) == op(At(a, i, j), At(b, i, j))
  {
    seq(|a|, i requires 0 <= i < |a| => seq(|a|, j requires 0 <= j < |a| => op(At(a, i, j), At(b, i, j))))
  }

  /** Keep a bound only if both sides agree on it. */
  function KeepEqual(a: Bnd, b: Bnd): Bnd {
    if a == b then a else None
  }

  predicate Shaped(z: Zone) {
    z.bottom || Square(z.m)
  }

  function JoinZ(a: Zone, b: Zone): Zone {
    if a.bottom then b
    else if b.bottom || |a.m| != |b.m| || !Square(a.m) || !Square(b.m) then a
    else Zone(Combine(a.m, b.m, BMax), false)
  }

  function MeetZ(a: Zone, b: Zone): Zone {
    if a.bottom || b.bottom then BottomZone
    else if |a.m| != |b.m| || !Square(a.m) || !Square(b.m) then a
    else Closing(Combine(a.m, b.m, BMin))
  }

  function WidenZ(a: Zone, b: Zone): Zone {
    if a.bottom then b
    else if b.bottom || |a.m| != |b.m| || !Square(a.m) || !Square(b.m) then a
    else Zone(Combine(a.m, b.m, KeepEqual), false)
  }

  predicate LeqZ(a: Zone, b: Zone) {
    a.bottom ||
    (!b.bottom && |a.m| == |b.m| && Square(a.m) && Square(b.m) &&
     forall i: nat, j: nat :: i < |a.m| && j < |a.m| ==> BLe(At(a.m, i, j), At(b.m, i, j)))
  }

  lemma LeqSound(a: Zone, b: Zone, v: seq<int>)
    requires LeqZ(a, b) && In(a, v)
    ensures In(b, v)
  {
    BelowSat(a.m, b.m, v);
  }

  /** In a closed zone each bound is met with equality by some member, and a missing bound is exceeded. */
  lemma BoundIsTight(z: Zone, n: nat, i: nat, j: nat, c: int) returns (v: seq<int>)
    requires Sized(z, n) && !z.bottom && Closed(z.m) && i < n && j < n
    requires At(z.m, i, j).Some? ==> c == At(z.m, i, j).value
    ensures In(z, v) && (i != j ==> v[j] - v[i] >= c) && v[j] - v[i] >= (if i == j then 0 else c)
  {
    var m := z.m;
    assert !NegativeAt(m, i) && !NegativeAt(m, j);
    assert Triangle(m, i, j, i) && Triangle(m, j, i, j);
    var c' := if At(m, j, i).Some? && -At(m, j, i).value > c then -At(m, j, i).value else c;
    var u := seq(n, x => if x == j && i != j then c' else 0);
    v, c' := Completes(m, u, {i, j});
  }

  /** On closed zones the matrix order is exactly inclusion. */
  lemma LeqExact(a: Zone, b: Zone, n: nat)
    requires Sized(a, n) && Sized(b, n) && !a.bottom && !b.bottom && Closed(a.m)
    requires forall i: nat :: i < n ==> At(b.m, i, i) == At(a.m, i, i)
    ensures LeqZ(a, b) <==> forall v :: In(a, v) ==> In(b, v)
  {
    if forall v :: In(a, v) ==> In(b, v) {
      forall i: nat, j: nat | i < n && j < n ensures BLe(At(a.m, i, j), At(b.m, i, j)) {
        if i != j && At(b.m, i, j).Some? {
          var c := if At(a.m, i, j).Some? then At(a.m, i, j).value else At(b.m, i, j).value + 1;
          var v := BoundIsTight(a, n, i, j, c);
          assert In(b, v);
          assert Obeys(At(b.m, i, j), v[j] - v[i]);
        }
      }
    }
    if LeqZ(a, b) {
      forall v | In(a, v) ensures In(b, v) {
        LeqSound(a, b, v);
      }
    }
  }

  /** `JoinZ` covers both arguments; of closed zones it is closed and the least zone that does. */
  lemma JoinLeast(a: Zone, b: Zone, c: Zone, n: nat)
    requires Sized(a, n) && Sized(b, n) && Sized(c, n) && !a.bottom && !b.bottom && !c.bottom
    requires Closed(a.m) && Closed(b.m)
    requires forall i: nat :: i < n ==> At(a.m, i, i) == At(b.m, i, i) == At(c.m, i, i)
    ensures Square(JoinZ(a, b).m) && Closed(JoinZ(a, b).m)
    ensures (forall v :: In(a, v) || In(b, v) ==> In(c, v)) ==> LeqZ(JoinZ(a, b), c)
  {
    var r := JoinZ(a, b).m;
    forall i: nat, k: nat, j: nat | i < n && k < n && j < n ensures Triangle(r, i, k, j) {
      assert Triangle(a.m, i, k, j) && Triangle(b.m, i, k, j);
    }
    forall i: nat | i < n ensures !NegativeAt(r, i) {
      assert !NegativeAt(a.m, i) && !NegativeAt(b.m, i);
    }
    if forall v :: In(a, v) || In(b, v) ==> In(c, v) {
      LeqExact(a, c, n);
      LeqExact(b, c, n);
    }
  }

  lemma JoinCovers(a: Zone, b: Zone, n: nat)
    requires Sized(a, n) && Sized(b, n)
    ensures Sized(JoinZ(a, b), n) && LeqZ(a, JoinZ(a, b)) && LeqZ(b, JoinZ(a, b))
  {
  }

  lemma MeetExact(a: Zone, b: Zone, n: nat, v: seq<int>)
    requires Sized(a, n) && Sized(b, n)
    ensures In(MeetZ(a, b), v) <==> In(a, v) && In(b, v)
  {
    if !a.bottom && !b.bottom {
      var m := Combine(a.m, b.m, BMin);
      RelaxKKeeps(m, |m|);
      BottomExactly(m);
      if Sat(a.m, v) && Sat(b.m, v) {
        forall i: nat, j: nat | i < n && j < n ensures Obeys(At(m, i, j), v[j] - v[i]) {
          assert Obeys(At(a.m, i, j), v[j] - v[i]) && Obeys(At(b.m, i, j), v[j] - v[i]);
        }
      }
      if Sat(m, v) {
        forall i: nat, j: nat | i < n && j < n
          ensures Obeys(At(a.m, i, j), v[j] - v[i]) && Obeys(At(b.m, i, j), v[j] - v[i])
        {
          assert Obeys(At(m, i, j), v[j] - v[i]);
        }
      }
    }
  }

  // ------------------------------------------------------------ widening

  lemma WidenCovers(a: Zone, b: Zone, n: nat)
    requires Sized(a, n) && Sized(b, n)
    ensures Sized(WidenZ(a, b), n) && LeqZ(a, WidenZ(a, b)) && LeqZ(b, WidenZ(a, b))
  {
  }

  ghost function FiniteInRow(row: seq<Bnd>): nat {
    if row == [] then 0 else FiniteInRow(row[..|row| - 1]) + (if row[|row| - 1].Some? then 1 else 0)
  }

  /** The number of finite bounds. */
  ghost function FiniteEntries(m: Matrix): nat {
    if m == [] then 0 else FiniteEntries(m[..|m| - 1]) + FiniteInRow(m[|m| - 1])
  }

  ghost predicate RowKept(a: seq<Bnd>, b: seq<Bnd>) {
    |a| == |b| && forall j :: 0 <= j < |a| ==> b[j] == a[j] || b[j].None?
  }

  lemma {:induction false} RowFalls(a: seq<Bnd>, b: seq<Bnd>)
    requires RowKept(a, b)
    ensures FiniteInRow(b) <= FiniteInRow(a) && (a != b ==> FiniteInRow(b) < FiniteInRow(a))
  {
    if a != [] {
      var k := |a| - 1;
      RowFalls(a[..k], b[..k]);
      if a[..k] == b[..k] && a[k] == b[k] {
        assert a == a[..k] + [a[k]] == b;
      }
    }
  }

  lemma {:induction false} EntriesFall(a: Matrix, b: Matrix)
    requires |a| == |b| && forall i :: 0 <= i < |a| ==> RowKept(a[i], b[i])
    ensures FiniteEntries(b) <= FiniteEntries(a) && (a != b ==> FiniteEntries(b) < FiniteEntries(a))
  {
    if a != [] {
      var k := |a| - 1;
      EntriesFall(a[..k], b[..k]);
      RowFalls(a[k], b[k]);
      if a[..k] == b[..k] && a[k] == b[k] {
        assert a == a[..k] + [a[k]] == b;
      }
    }
  }

  /** Widening a non-empty zone only drops finite bounds, and drops at least one if it changes anything. */
  lemma WidenDropsBounds(a: Zone, b: Zone, n: nat)
    requires Sized(a, n) && Sized(b, n) && !a.bottom && WidenZ(a, b) != a
    ensures !WidenZ(a, b).bottom && FiniteEntries(WidenZ(a, b).m) < FiniteEntries(a.m)
  {
    var w := WidenZ(a, b).m;
    forall i | 0 <= i < n ensures RowKept(a.m[i], w[i]) {
      forall j | 0 <= j < n ensures w[i][j] == a.m[i][j] || w[i][j].None? {
        assert At(w, i, j) == KeepEqual(At(a.m, i, j), At(b.m, i, j));
      }
    }
    EntriesFall(a.m, w);
  }

  /** Widening keeps exactly the bounds that both zones have. */
  lemma WidenKeepsShared(a: Zone, b: Zone, n: nat, v: seq<int>)
    requires Sized(a, n) && Sized(b, n) && !a.bottom && !b.bottom
    ensures In(WidenZ(a, b), v) <==>
              && |v| == n && v[0] == 0
              && forall i: nat, j: nat :: i < n && j < n && At(a.m, i, j) == At(b.m, i, j) ==>
                   Obeys(At(a.m, i, j), v[j] - v[i])
  {
    var w := WidenZ(a, b).m;
    if |v| == n && v[0] == 0 {
      forall i: nat, j: nat | i < n && j < n
        ensures Obeys(At(w, i, j), v[j] - v[i]) <==>
                (At(a.m, i, j) == At(b.m, i, j) ==> Obeys(At(a.m, i, j), v[j] - v[i]))
      {
      }
    }
  }

  /** The rank used for termination: emptiness first, then the number of finite bounds. */
  ghost predicate WidenRankFalls(a: Zone, w: Zone) {
    (a.bottom && !w.bottom) || (a.bottom == w.bottom && FiniteEntries(w.m) < FiniteEntries(a.m) && !a.bottom)
  }

  /**
   A widening step that changes a zone uses up rank if and only if it does not replace one empty zone by a
   different one: empty zones keep the matrix they were found infeasible with, and are compared by it.
   */
  lemma WidenProgressExactly(a: Zone, b: Zone, n: nat)
    requires Sized(a, n) && Sized(b, n) && WidenZ(a, b) != a
    ensures WidenRankFalls(a, WidenZ(a, b)) <==> !(a.bottom && b.bottom)
  {
    if !a.bottom {
      WidenDropsBounds(a, b, n);
    }
  }

  /** With one variable, the last entry of a negative loop doubles when it is closed. */
  lemma LoopDoubles(m: Matrix, c: int)
    requires Square(m) && |m| == 2 && c < 0
    requires At(m, 0, 0) == Some(0) && At(m, 0, 1) == None && At(m, 1, 0) == None && At(m, 1, 1) == Some(c)
    ensures At(RelaxK(m, 2), 1, 1) == Some(c + c)
  {
    RoundShape(m, 0, 2);
    var m1 := RelaxI(m, 0, 2);
    assert RelaxK(m, 0) == m && RelaxK(m, 1) == m1;
    assert At(m1, 1, 1) == Some(c);
    var m2 := RelaxI(m1, 1, 1);
    assert RelaxI(m1, 1, 0) == m1;
    RelaxOneRow(m1, 1, 0, 2);
    assert At(m2, 1, 1) == Some(c);
    RelaxOneRow(m2, 1, 1, 1);
    assert At(RelaxJ(m2, 1, 1, 1), 1, 1) == Some(c);
  }

  lemma {:induction false} RelaxOneRow(m: Matrix, k: nat, i: nat, j: nat)
    requires Square(m) && k < |m| && i < |m| && j <= |m|
    ensures forall a: nat, b: nat :: a < |m| && b < |m| && (a != i || b >= j) ==>
              At(RelaxJ(m, k, i, j), a, b) == At(m, a, b)
  {
    if j > 0 {
      RelaxOneRow(m, k, i, j - 1);
    }
  }

  /** Two empty zones with different matrices widen back and forth for ever. */
  lemma EmptyZonesOscillate()
    ensures var a, b := AddConstraint(TopZone(1), 1, 1, -1), AddConstraint(TopZone(1), 1, 1, -2);
            a.bottom && b.bottom && a != b && WidenZ(a, b) == b && WidenZ(b, a) == a
  {
    var t := TopZone(1).m;
    var p, q := Put(t, 1, 1, BMin(At(t, 1, 1), Some(-1))), Put(t, 1, 1, BMin(At(t, 1, 1), Some(-2)));
    LoopDoubles(p, -1);
    LoopDoubles(q, -2);
    assert NegativeAt(RelaxK(p, 2), 1) && NegativeAt(RelaxK(q, 2), 1);
  }
}
