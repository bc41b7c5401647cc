/**
 The integer-interval lattice (crates/absint/src/interval.rs). Endpoints are 128-bit:
 sums and products that overflow become infinite. Soundness is stated for concrete
 values of magnitude at most 2^126, which covers every machine integer.
 */
module Intervals {

  const I128_MAX: int := 0x7FFF_FFFF_FFFF_FFFF_FFFF_FFFF_FFFF_FFFF
  const I128_MIN: int := -0x8000_0000_0000_0000_0000_0000_0000_0000
  const LIMIT: int := 0x4000_0000_0000_0000_0000_0000_0000_0000

  predicate InI128(v: int) {
    I128_MIN <= v <= I128_MAX
  }

  /** The concrete values the soundness statements range over. */
  predicate Small(v: int) {
    -LIMIT <= v <= LIMIT
  }

  datatype Bound = NegInf | Fin(n: int) | PosInf

  predicate BoundOk(b: Bound) {
    b.Fin? ==> InI128(b.n)
  }

  function Min(a: Bound, b: Bound): Bound {
    match (a, b)
    case (NegInf, _) => NegInf
    case (_, NegInf) => NegInf
    case (PosInf, x) => x
    case (x, PosInf) => x
    case (Fin(x), Fin(y)) => Fin(if x < y then x else y)
  }

  function Max(a: Bound, b: Bound): Bound {
    match (a, b)
    case (PosInf, _) => PosInf
    case (_, PosInf) => PosInf
    case (NegInf, x) => x
    case (x, NegInf) => x
    case (Fin(x), Fin(y)) => Fin(if x > y then x else y)
  }

  predicate Le(a: Bound, b: Bound) {
    match (a, b)
    case (NegInf, _) => true
    case (_, PosInf) => true
    case (_, NegInf) => false
    case (PosInf, _) => false
    case (Fin(x), Fin(y)) => x <= y
  }

  function Plus(a: Bound, b: Bound): Bound {
    match (a, b)
    case (NegInf, PosInf) => Fin(0)
    case (PosInf, NegInf) => Fin(0)
    case (NegInf, _) => NegInf
    case (_, NegInf) => NegInf
    case (PosInf, _) => PosInf
    case (_, PosInf) => PosInf
    case (Fin(x), Fin(y)) => if InI128(x + y) then Fin(x + y) else if x > 0 then PosInf else NegInf
  }

  function Minus(a: Bound): Bound {
    match a
    case NegInf => PosInf
    case PosInf => NegInf
    case Fin(x) => Fin(if x == I128_MIN then I128_MAX else -x)
  }

  function Times(a: Bound, b: Bound): Bound {
    if a == Fin(0) || b == Fin(0) then Fin(0)
    else
      match (a, b)
      case (Fin(x), Fin(y)) =>
        if InI128(x * y) then Fin(x * y) else if (x > 0) == (y > 0) then PosInf else NegInf
      case (inf, Fin(k)) => if k > 0 then inf else Minus(inf)
      case (Fin(k), inf) => if k > 0 then inf else Minus(inf)
      case (x, y) => if x == y then PosInf else NegInf
  }

  datatype Interval = Bottom | Range(lo: Bound, hi: Bound)

  const Top: Interval := Range(NegInf, PosInf)

  function Singleton(n: int): Interval {
    Range(Fin(n), Fin(n))
  }

  function MakeRange(lo: int, hi: int): Interval {
    if lo <= hi then Range(Fin(lo), Fin(hi)) else Bottom
  }

  predicate IntervalOk(i: Interval) {
    i.Range? ==> BoundOk(i.lo) && BoundOk(i.hi)
  }

  /** The integers an interval stands for. */
  predicate Has(i: Interval, v: int) {
    i.Range? && Le(i.lo, Fin(v)) && Le(Fin(v), i.hi)
  }

  // -------------------------------------------------------- operations

  function AddI(a: Interval, b: Interval): Interval {
    if a.Bottom? || b.Bottom? then Bottom else Range(Plus(a.lo, b.lo), Plus(a.hi, b.hi))
  }

  function NegI(a: Interval): Interval {
    if a.Bottom? then Bottom else Range(Minus(a.hi), Minus(a.lo))
  }

  function SubI(a: Interval, b: Interval): Interval {
    AddI(a, NegI(b))
  }

  /** The four corner products, folded with `Min` and `Max`. */
  function MulI(a: Interval, b: Interval): Interval {
    if a.Bottom? || b.Bottom? then Bottom
    else
      var p, q, r, s := Times(a.lo, b.lo), Times(a.lo, b.hi), Times(a.hi, b.lo), Times(a.hi, b.hi);
      Range(Min(Min(Min(p, q), r), s), Max(Max(Max(p, q), r), s))
  }

  function Meet(a: Interval, b: Interval): Interval {
    if a.Bottom? || b.Bottom? then Bottom
    else
      var lo, hi := Max(a.lo, b.lo), Min(a.hi, b.hi);
      if Le(lo, hi) then Range(lo, hi) else Bottom
  }

  function Join(a: Interval, b: Interval): Interval {
    if a.Bottom? then b else if b.Bottom? then a else Range(Min(a.lo, b.lo), Max(a.hi, b.hi))
  }

  function Widen(a: Interval, b: Interval): Interval {
    if a.Bottom? then b
    else if b.Bottom? then a
    else Range(if Le(a.lo, b.lo) then a.lo else NegInf, if Le(b.hi, a.hi) then a.hi else PosInf)
  }

  predicate Leq(a: Interval, b: Interval) {
    a.Bottom? || (b.Range? && Le(b.lo, a.lo) && Le(a.hi, b.hi))
  }

  /** The half-line of values a guard proves at most (below, when strict) some member of `i`. */
  function AsUpper(i: Interval, strict: bool): Interval {
    if i.Bottom? then Bottom else Range(NegInf, if strict then Plus(i.hi, Fin(-1)) else i.hi)
  }

  function AsLower(i: Interval, strict: bool): Interval {
    if i.Bottom? then Bottom else Range(if strict then Plus(i.lo, Fin(1)) else i.lo, PosInf)
  }

  // ------------------------------------------------- exactness on values

  /** `Meet` is exactly intersection. */
  lemma MeetExact(a: Interval, b: Interval, v: int)
    ensures Has(Meet(a, b), v) <==> Has(a, v) && Has(b, v)
  {
  }

  /** `Leq` is sound, and complete on intervals that hold a value. */
  lemma LeqMeansSubset(a: Interval, b: Interval)
    ensures Leq(a, b) ==> forall v :: Has(a, v) ==> Has(b, v)
    ensures (exists v :: Has(a, v)) && (forall v :: Has(a, v) ==> Has(b, v)) ==> Leq(a, b)
  {
    if (exists v :: Has(a, v)) && (forall v :: Has(a, v) ==> Has(b, v)) {
      var v :| Has(a, v);
      assert Has(b, v);
      if a.lo.Fin? {
        assert Has(a, a.lo.n);
      } else if b.lo.Fin? {
        var u := if v < b.lo.n then v else b.lo.n - 1;
        assert Has(a, u);
      }
      if a.hi.Fin? {
        assert Has(a, a.hi.n);
      } else if b.hi.Fin? {
        var u := if v > b.hi.n then v else b.hi.n + 1;
        assert Has(a, u);
      }
    }
  }

  /** `Join` is the least interval above both. */
  lemma JoinLeast(a: Interval, b: Interval, c: Interval)
    ensures Leq(a, Join(a, b)) && Leq(b, Join(a, b))
    ensures Leq(a, c) && Leq(b, c) ==> Leq(Join(a, b), c)
  {
  }

  lemma LeqTransitive(a: Interval, b: Interval, c: Interval)
    requires Leq(a, b) && Leq(b, c)
    ensures Leq(a, c)
  {
  }

  /** How often an interval can still be widened. */
  function Rank(i: Interval): nat {
    if i.Bottom? then 3 else (if i.lo == NegInf then 0 else 1) + (if i.hi == PosInf then 0 else 1)
  }

  /** Widening covers both arguments, and each change uses up rank. */
  lemma WidenLaws(a: Interval, b: Interval)
    ensures Leq(a, Widen(a, b)) && Leq(b, Widen(a, b))
    ensures Widen(a, b) == a || Rank(Widen(a, b)) < Rank(a)
  {
  }

  // ------------------------------------------------- arithmetic is sound

  /** Arithmetic over the integers with infinities, before any overflow. */
  function Clamp(b: Bound): Bound {
    match b
    case Fin(v) => if v > I128_MAX then PosInf else if v < I128_MIN then NegInf else b
    case _ => b
  }

  lemma ClampMonotone(a: Bound, b: Bound)
    requires Le(a, b)
    ensures Le(Clamp(a), Clamp(b))
  {
  }

  function Product(a: Bound, b: Bound): Bound {
    if a == Fin(0) || b == Fin(0) then Fin(0)
    else
      match (a, b)
      case (Fin(x), Fin(y)) => Fin(x * y)
      case (inf, Fin(k)) => if k > 0 then inf else Minus(inf)
      case (Fin(k), inf) => if k > 0 then inf else Minus(inf)
      case (x, y) => if x == y then PosInf else NegInf
  }

  lemma SignOfProduct(x: int, y: int)
    ensures (x > 0 && y > 0) || (x < 0 && y < 0) ==> x * y > 0
    ensures (x > 0 && y < 0) || (x < 0 && y > 0) ==> x * y < 0
  {
  }

  lemma TimesIsClamped(a: Bound, b: Bound)
    ensures Times(a, b) == Clamp(Product(a, b))
  {
    if a.Fin? && b.Fin? {
      SignOfProduct(a.n, b.n);
    }
  }

  lemma ScaleUp(x: int, y: int, k: int)
    requires x <= y && k >= 0
    ensures x * k <= y * k
  {
  }

  lemma ScaleDown(x: int, y: int, k: int)
    requires x <= y && k <= 0
    ensures y * k <= x * k
  {
  }

  lemma FiniteBetween(p: int, c: Bound, d: Bound, y: int)
    requires Le(c, Fin(y)) && Le(Fin(y), d)
    ensures Le(Product(Fin(p), if p >= 0 then c else d), Fin(p * y))
    ensures Le(Fin(p * y), Product(Fin(p), if p >= 0 then d else c))
  {
    if c.Fin? {
      if p >= 0 { ScaleUp(c.n, y, p); } else { ScaleDown(c.n, y, p); }
    }
    if d.Fin? {
      if p >= 0 { ScaleUp(y, d.n, p); } else { ScaleDown(y, d.n, p); }
    }
  }

  lemma InfiniteBetween(p: Bound, c: Bound, d: Bound, y: int)
    requires Le(c, Fin(y)) && Le(Fin(y), d) && !p.Fin?
    ensures Le(Min(Product(p, c), Product(p, d)), Product(p, Fin(y)))
    ensures Le(Product(p, Fin(y)), Max(Product(p, c), Product(p, d)))
  {
  }

  lemma MinBelow(a: Bound, b: Bound)
    ensures Le(Min(a, b), a) && Le(Min(a, b), b) && Le(a, Max(a, b)) && Le(b, Max(a, b))
  {
  }

  /** Multiplying by a fixed bound moves between the products at the two ends. */
  lemma BetweenEnds(p: Bound, c: Bound, d: Bound, y: int)
    requires Le(c, Fin(y)) && Le(Fin(y), d)
    ensures Le(Min(Product(p, c), Product(p, d)), Product(p, Fin(y)))
    ensures Le(Product(p, Fin(y)), Max(Product(p, c), Product(p, d)))
  {
    if p.Fin? {
      assert Product(p, Fin(y)) == Fin(p.n * y);
      FiniteBetween(p.n, c, d, y);
      hide Product, Min, Max, Le;
      var u, v := Product(p, c), Product(p, d);
      MinBelow(u, v);
      LeTrans(Min(u, v), if p.n >= 0 then u else v, Fin(p.n * y));
      LeTrans(Fin(p.n * y), if p.n >= 0 then v else u, Max(u, v));
    } else {
      InfiniteBetween(p, c, d, y);
    }
  }

  lemma ProductCommutes(a: Bound, b: Bound)
    ensures Product(a, b) == Product(b, a)
  {
  }

  lemma LeTrans(a: Bound, b: Bound, c: Bound)
    requires Le(a, b) && Le(b, c)
    ensures Le(a, c)
  {
  }

  lemma MinFold(p: Bound, q: Bound, r: Bound, s: Bound)
    ensures Min(Min(p, q), Min(r, s)) == Min(Min(Min(p, q), r), s)
    ensures Max(Max(p, q), Max(r, s)) == Max(Max(Max(p, q), r), s)
  {
  }

  lemma MinMonotone(p: Bound, q: Bound, p': Bound, q': Bound)
    ensures Le(p, p') && Le(q, q') ==> Le(Min(p, q), Min(p', q'))
    ensures Le(p', p) && Le(q', q) ==> Le(Max(p', q'), Max(p, q))
  {
  }

  lemma CornersBound(a: Bound, b: Bound, c: Bound, d: Bound, x: int, y: int)
    requires Le(a, Fin(x)) && Le(Fin(x), b) && Le(c, Fin(y)) && Le(Fin(y), d)
    ensures Le(Min(Min(Min(Product(a, c), Product(a, d)), Product(b, c)), Product(b, d)), Fin(x * y))
    ensures Le(Fin(x * y), Max(Max(Max(Product(a, c), Product(a, d)), Product(b, c)), Product(b, d)))
  {
    BetweenEnds(a, c, d, y);
    BetweenEnds(b, c, d, y);
    BetweenEnds(Fin(y), a, b, x);
    ProductCommutes(Fin(y), a);
    ProductCommutes(Fin(y), b);
    ProductCommutes(Fin(y), Fin(x));
    assert Product(Fin(x), Fin(y)) == Fin(x * y);
    var p, q, r, s := Product(a, c), Product(a, d), Product(b, c), Product(b, d);
    var u, v := Product(a, Fin(y)), Product(b, Fin(y));
    hide Product, Min, Max, Le;
    MinMonotone(Min(p, q), Min(r, s), u, v);
    MinMonotone(Max(p, q), Max(r, s), u, v);
    MinFold(p, q, r, s);
    LeTrans(Min(Min(p, q), Min(r, s)), Min(u, v), Fin(x * y));
    LeTrans(Fin(x * y), Max(u, v), Max(Max(p, q), Max(r, s)));
  }

  lemma ClampMin(a: Bound, b: Bound)
    ensures Clamp(Min(a, b)) == Min(Clamp(a), Clamp(b)) && Clamp(Max(a, b)) == Max(Clamp(a), Clamp(b))
  {
  }

  lemma MulSound(a: Interval, b: Interval, x: int, y: int)
    requires Has(a, x) && Has(b, y) && InI128(x * y)
    ensures Has(MulI(a, b), x * y)
  {
    CornersBound(a.lo, a.hi, b.lo, b.hi, x, y);
    TimesIsClamped(a.lo, b.lo);
    TimesIsClamped(a.lo, b.hi);
    TimesIsClamped(a.hi, b.lo);
    TimesIsClamped(a.hi, b.hi);
    var p, q, r, s := Product(a.lo, b.lo), Product(a.lo, b.hi), Product(a.hi, b.lo), Product(a.hi, b.hi);
    hide Times, Product, Min, Max, Le;
    ClampMin(p, q);
    ClampMin(Min(p, q), r);
    ClampMin(Max(p, q), r);
    ClampMin(Min(Min(p, q), r), s);
    ClampMin(Max(Max(p, q), r), s);
    ClampMonotone(Min(Min(Min(p, q), r), s), Fin(x * y));
    ClampMonotone(Fin(x * y), Max(Max(Max(p, q), r), s));
    ClampInRange(x * y);
  }

  lemma ClampInRange(v: int)
    requires InI128(v)
    ensures Clamp(Fin(v)) == Fin(v)
  {
  }

  lemma AddSound(a: Interval, b: Interval, x: int, y: int)
    requires IntervalOk(a) && IntervalOk(b) && Has(a, x) && Has(b, y) && InI128(x + y)
    ensures Has(AddI(a, b), x + y)
  {
  }

  /** The branch of `Minus` that saturates matters: the subtrahend may be the minimum while the minuend is negative. */
  predicate SubSaturates(a: Interval, b: Interval) {
    a.Range? && b.Range? && b.lo == Fin(I128_MIN) && a.hi.Fin? && a.hi.n < 0
  }

  /** Subtraction covers every 128-bit difference, except when negation saturates. */
  lemma SubSound(a: Interval, b: Interval, x: int, y: int)
    requires IntervalOk(a) && IntervalOk(b) && Has(a, x) && Has(b, y) && InI128(x - y)
    requires !SubSaturates(a, b) || (Small(x) && Small(y))
    ensures Has(SubI(a, b), x - y)
  {
  }

  /** Taking the smallest number away from -1 misses the difference, because its negation saturates. */
  lemma SubMisses()
    ensures InI128(-1 - I128_MIN) && Has(Singleton(-1), -1) && Has(Singleton(I128_MIN), I128_MIN)
    ensures !Has(SubI(Singleton(-1), Singleton(I128_MIN)), -1 - I128_MIN)
  {
  }

  /** For intervals that hold 128-bit values, subtraction is sound if and only if negation does not saturate there. */
  lemma SubSoundExactly(a: Interval, b: Interval)
    requires IntervalOk(a) && IntervalOk(b)
    requires (exists x :: InI128(x) && Has(a, x)) && (exists y :: InI128(y) && Has(b, y))
    ensures (forall x, y :: Has(a, x) && Has(b, y) && InI128(x - y) ==> Has(SubI(a, b), x - y)) <==>
            !SubSaturates(a, b)
  {
    if SubSaturates(a, b) {
      assert Has(a, a.hi.n) && Has(b, I128_MIN);
      assert !Has(SubI(a, b), a.hi.n - I128_MIN);
    } else {
      forall x, y | Has(a, x) && Has(b, y) && InI128(x - y) ensures Has(SubI(a, b), x - y) {
        SubSound(a, b, x, y);
      }
    }
  }

  lemma BoundsOk(a: Bound, b: Bound)
    requires BoundOk(a) && BoundOk(b)
    ensures BoundOk(Plus(a, b)) && BoundOk(Minus(a)) && BoundOk(Min(a, b)) && BoundOk(Max(a, b))
  {
  }

  lemma TimesOk(a: Bound, b: Bound)
    requires BoundOk(a) && BoundOk(b)
    ensures BoundOk(Times(a, b))
  {
  }

  lemma SumOk(a: Interval, b: Interval)
    requires IntervalOk(a) && IntervalOk(b)
    ensures IntervalOk(AddI(a, b)) && IntervalOk(NegI(b))
  {
    if a.Range? && b.Range? {
      hide Plus, Minus;
      BoundsOk(a.lo, b.lo);
      BoundsOk(a.hi, b.hi);
      BoundsOk(b.hi, b.lo);
      BoundsOk(b.lo, b.lo);
    } else if b.Range? {
      BoundsOk(b.hi, b.lo);
      BoundsOk(b.lo, b.lo);
    }
  }

  lemma ProductOk(a: Interval, b: Interval)
    requires IntervalOk(a) && IntervalOk(b)
    ensures IntervalOk(MulI(a, b))
  {
    if a.Range? && b.Range? {
      hide Times, Min, Max;
      var p, q, r, s := Times(a.lo, b.lo), Times(a.lo, b.hi), Times(a.hi, b.lo), Times(a.hi, b.hi);
      TimesOk(a.lo, b.lo);
      TimesOk(a.lo, b.hi);
      TimesOk(a.hi, b.lo);
      TimesOk(a.hi, b.hi);
      BoundsOk(p, q);
      BoundsOk(Min(p, q), r);
      BoundsOk(Max(p, q), r);
      BoundsOk(Min(Min(p, q), r), s);
      BoundsOk(Max(Max(p, q), r), s);
    }
  }

  lemma LatticeOk(a: Interval, b: Interval)
    requires IntervalOk(a) && IntervalOk(b)
    ensures IntervalOk(Meet(a, b)) && IntervalOk(Join(a, b)) && IntervalOk(Widen(a, b))
  {
    if a.Range? && b.Range? {
      hide Min, Max;
      BoundsOk(a.lo, b.lo);
      BoundsOk(a.hi, b.hi);
    }
  }

  /** Results stay within 128-bit endpoints. */
  lemma ArithmeticOk(a: Interval, b: Interval)
    requires IntervalOk(a) && IntervalOk(b)
    ensures IntervalOk(AddI(a, b)) && IntervalOk(SubI(a, b)) && IntervalOk(MulI(a, b))
    ensures IntervalOk(Meet(a, b)) && IntervalOk(Join(a, b)) && IntervalOk(Widen(a, b))
    ensures forall strict :: IntervalOk(AsUpper(a, strict)) && IntervalOk(AsLower(a, strict))
  {
    hide AddI, NegI, MulI, Meet, Join, Widen, AsUpper, AsLower;
    SumOk(a, b);
    SumOk(a, NegI(b));
    ProductOk(a, b);
    LatticeOk(a, b);
    HalfLinesOk(a);
  }

  lemma HalfLinesOk(a: Interval)
    requires IntervalOk(a)
    ensures forall strict :: IntervalOk(AsUpper(a, strict)) && IntervalOk(AsLower(a, strict))
  {
  }

  lemma UpperSound(i: Interval, v: int, w: int)
    requires IntervalOk(i) && Has(i, w) && InI128(v)
    ensures v <= w ==> Has(AsUpper(i, false), v)
    ensures v < w ==> Has(AsUpper(i, true), v)
  {
  }

  lemma LowerSound(i: Interval, v: int, w: int)
    requires IntervalOk(i) && Has(i, w) && InI128(v)
    ensures v >= w ==> Has(AsLower(i, false), v)
    ensures v > w ==> Has(AsLower(i, true), v)
  {
  }
}
