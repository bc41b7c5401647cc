/**
 The matrix updated in place, as crates/absint/src/zone.rs does it. Each method leaves the
 value that the matching function of `Zones` describes.
 */
module ZoneCells {
  import opened Wrappers
  import opened Zones

  /** The contents of a square array. */
  ghost function RowsOf(a: array2<Bnd>): (r: Matrix)
    requires a.Length0 == a.Length1
    reads a
    ensures Square(r) && |r| == a.Length0
    ensures forall i: nat, j: nat :: i < |r| && j < |r| ==> At(r, i, j) == a[i, j]
  {
    seq(a.Length0, i requires 0 <= i < a.Length0 reads a =>
      seq(a.Length1, j requires 0 <= i < a.Length0 && 0 <= j < a.Length1 reads a => a[i, j]))
  }

  class Dbm {
    var m: array2<Bnd>
    var bottom: bool

    ghost predicate Valid()
      reads this`m
    {
      m.Length0 == m.Length1 && 0 < m.Length0
    }

    ghost function Rows(): (r: Matrix)
      requires Valid()
      reads this`m, m
    {
      RowsOf(m)
    }

    ghost function Value(): Zone
      requires Valid()
      reads this, m
    {
      Zone(Rows(), bottom)
    }

    /** The unconstrained zone over `nvars` variables. */
    constructor Top(nvars: nat)
      ensures Valid() && fresh(m) && Value() == TopZone(nvars)
    {
      m := new Bnd[nvars + 1, nvars + 1]((i, j) => if i == j then Some(0) else None);
      bottom := false;
      new;
      SameMatrix(Rows(), TopZone(nvars).m);
    }

    method SetCell(i: nat, j: nat, b: Bnd)
      requires Valid() && i < m.Length0 && j < m.Length0
      modifies m
      ensures Valid() && Rows() == Put(old(Rows()), i, j, b)
    {
      ghost var before := Rows();
      m[i, j] := b;
      SameMatrix(Rows(), Put(before, i, j, b));
    }

    /** Floyd-Warshall in place; a negative diagonal marks the zone empty. */
    method Close()
      requires Valid() && !bottom
      modifies this`bottom, m
      ensures Valid() && m == old(m) && Value() == Closing(old(Rows()))
    {
      hide RowsOf, RelaxJ, RelaxI, RelaxK;
      var side := m.Length0;
      ghost var start := Rows();
      RoundStart(start);
      for k := 0 to side
        invariant Valid() && m == old(m) && !bottom
        invariant Rows() == RelaxK(start, k)
      {
        ghost var round := Rows();
        RowStart(round, k);
        for i := 0 to side
          invariant Valid() && m == old(m) && !bottom
          invariant Rows() == RelaxI(round, k, i)
        {
          ghost var row := Rows();
          CellStart(row, k, i);
          for j := 0 to side
            invariant Valid() && m == old(m) && !bottom
            invariant Rows() == RelaxJ(row, k, i, j)
          {
            CellStep(row, k, i, j);
            var through := BAdd(m[i, k], m[k, j]);
            SetCell(i, j, BMin(m[i, j], through));
          }
          RowStep(round, k, i);
        }
        RoundStep(start, k);
      }
      ghost var final := Rows();
      for i := 0 to side
        invariant Valid() && m == old(m) && !bottom && Rows() == final
        invariant forall d: nat :: d < i ==> !NegativeAt(final, d)
      {
        if m[i, i].Some? && m[i, i].value < 0 {
          assert NegativeAt(final, i);
          bottom := true;
          return;
        }
      }
    }

    /** Tighten with `v[a] - v[b] <= c`, then close. */
    method AddConstraint(a: nat, b: nat, c: int)
      requires Valid()
      modifies this`bottom, m
      ensures Valid() && m == old(m) && Value() == Zones.AddConstraint(old(Value()), a, b, c)
    {
      if bottom || a >= m.Length0 || b >= m.Length0 {
        return;
      }
      SetCell(b, a, BMin(m[b, a], Some(c)));
      Close();
    }

    /** Drop every bound on variable `k`. */
    method Forget(k: nat)
      requires Valid()
      modifies m
      ensures Valid() && Value() == Zones.Forget(old(Value()), k)
    {
      if bottom || k == 0 || k >= m.Length0 {
        return;
      }
      ghost var start := Rows();
      for i := 0 to m.Length0
        invariant Valid()
        invariant forall x: nat, y: nat :: x < m.Length0 && y < m.Length0 ==>
                    m[x, y] == if (x == k && y < i && y != k) || (y == k && x < i && x != k) then None
                        else At(start, x, y)
      {
        if i != k {
          m[k, i] := None;
          m[i, k] := None;
        }
      }
      m[k, k] := Some(0);
      SameMatrix(Rows(), ForgetM(start, k));
    }

    /** The self-update `v[k] := v[k] + c`. */
    method Translate(k: nat, c: int)
      requires Valid()
      modifies m
      ensures Valid() && Value() == Zones.Translate(old(Value()), k, c)
    {
      if bottom || k == 0 || k >= m.Length0 {
        return;
      }
      ghost var start := Rows();
      for j := 0 to m.Length0
        invariant Valid()
        invariant forall x: nat, y: nat :: x < m.Length0 && y < m.Length0 ==>
                    m[x, y] == if (x == k && y < j) || (y == k && x < j) then TranslateCell(start, k, c, x, y)
                        else At(start, x, y)
      {
        if j != k {
          m[j, k] := BAdd(m[j, k], Some(c));
          m[k, j] := BAdd(m[k, j], Some(-c));
        }
      }
      SameMatrix(Rows(), TranslateM(start, k, c));
    }
  }

  lemma SameMatrix(a: Matrix, b: Matrix)
    requires Square(a) && Square(b) && |a| == |b|
    requires forall i: nat, j: nat :: i < |a| && j < |a| ==> At(a, i, j) == At(b, i, j)
    ensures a == b
  {
    forall i | 0 <= i < |a| ensures a[i] == b[i] {
      forall j | 0 <= j < |a| ensures a[i][j] == b[i][j] {
        assert At(a, i, j) == At(b, i, j);
      }
    }
  }

  lemma RoundStart(m: Matrix)
    requires Square(m)
    ensures RelaxK(m, 0) == m
  {
  }

  lemma RowStart(m: Matrix, k: nat)
    requires Square(m) && k < |m|
    ensures RelaxI(m, k, 0) == m
  {
  }

  lemma CellStart(m: Matrix, k: nat, i: nat)
    requires Square(m) && k < |m| && i < |m|
    ensures RelaxJ(m, k, i, 0) == m
  {
  }

  lemma CellStep(m: Matrix, k: nat, i: nat, j: nat)
    requires Square(m) && k < |m| && i < |m| && j < |m|
    ensures var p := RelaxJ(m, k, i, j);
            RelaxJ(m, k, i, j + 1) == Put(p, i, j, BMin(At(p, i, j), BAdd(At(p, i, k), At(p, k, j))))
  {
  }

  lemma RowStep(m: Matrix, k: nat, i: nat)
    requires Square(m) && k < |m| && i < |m|
    ensures RelaxI(m, k, i + 1) == RelaxJ(RelaxI(m, k, i), k, i, |m|)
  {
  }

  lemma RoundStep(m: Matrix, k: nat)
    requires Square(m) && k < |m|
    ensures RelaxK(m, k + 1) == RelaxI(RelaxK(m, k), k, |m|)
  {
  }
}
