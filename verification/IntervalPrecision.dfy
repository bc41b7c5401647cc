/**
 What the interval operations lose, and that it is nothing: sums, half-lines and verdicts are exact,
 bounds of products and widenings are reached (crates/absint/src/interval.rs, cond.rs, analysis.rs).
 */
module IntervalPrecision {
  import opened Wrappers
  import opened Ir
  import opened Intervals
  import opened Env
  import opened IntervalAnalysis
  import opened Conditions
  import S = IntervalSoundness

  ghost predicate Inhabited(i: Interval) {
    exists v :: Has(i, v)
  }

  /** A member at or below `n`, and one at or above it, unless a bound forbids it. */
  lemma Members(i: Interval, n: int) returns (x: int, y: int)
    requires Inhabited(i)
    ensures Has(i, x) && (i.lo.NegInf? || i.lo.Fin?) && (if i.lo.Fin? then x == i.lo.n else x <= n)
    ensures Has(i, y) && (i.hi.PosInf? || i.hi.Fin?) && (if i.hi.Fin? then y == i.hi.n else y >= n)
  {
    var v :| Has(i, v);
    x := if i.lo.Fin? then i.lo.n else if v < n then v else n;
    y := if i.hi.Fin? then i.hi.n else if v > n then v else n;
  }

  // ------------------------------------------------------------ guards and verdicts

  /** A strict guard against `i` leaves exactly the numbers below some member, any other those at most some member. */
  lemma UpperExactly(i: Interval, strict: bool, v: int)
    requires IntervalOk(i) && (i.Bottom? || Inhabited(i)) && InI128(v)
    ensures Has(AsUpper(i, strict), v) <==> exists w :: Has(i, w) && if strict then v < w else v <= w
  {
    if i.Range? {
      var x, y := Members(i, v + 1);
    }
  }

  lemma LowerExactly(i: Interval, strict: bool, v: int)
    requires IntervalOk(i) && (i.Bottom? || Inhabited(i)) && InI128(v)
    ensures Has(AsLower(i, strict), v) <==> exists w :: Has(i, w) && if strict then v > w else v >= w
  {
    if i.Range? {
      var x, y := Members(i, v - 1);
    }
  }

  ghost predicate AllTrue(op: CmpOp, a: Interval, b: Interval) {
    forall x, y :: Has(a, x) && Has(b, y) ==> Truth(op, x, y)
  }

  /** A pair of members on which an ordered test fails, when it is not decided. */
  lemma LessExactly(a: Interval, b: Interval)
    requires Inhabited(a) && Inhabited(b)
    ensures Lt(a.hi, b.lo) <==> AllTrue(Slt, a, b)
    ensures Le(a.hi, b.lo) <==> AllTrue(Sle, a, b)
  {
    var x, top := Members(a, 0);
    var low, y := Members(b, 0);
    if a.hi.PosInf? {
      var u, far := Members(a, low);
      assert Has(a, far) && Has(b, low) && !Truth(Slt, far, low);
      var w, further := Members(a, low + 1);
      assert Has(a, further) && !Truth(Sle, further, low);
    } else if b.lo.NegInf? {
      var far, u := Members(b, top);
      assert Has(b, far) && Has(a, top) && !Truth(Slt, top, far);
      var further, w := Members(b, top - 1);
      assert Has(b, further) && !Truth(Sle, top, further);
    } else {
      assert Has(a, top) && Has(b, low);
      assert Truth(Slt, top, low) ==> Lt(a.hi, b.lo);
      assert Truth(Sle, top, low) ==> Le(a.hi, b.lo);
    }
  }

  /** Two intervals without a common member lie apart. */
  lemma ApartExactly(a: Interval, b: Interval)
    requires Inhabited(a) && Inhabited(b)
    ensures Lt(a.hi, b.lo) || Lt(b.hi, a.lo) <==> AllTrue(Ne, a, b)
  {
    if !Lt(a.hi, b.lo) && !Lt(b.hi, a.lo) {
      var u :| Has(a, u);
      var w :| Has(b, w);
      var x := if a.lo.Fin? && !Le(a.lo, b.lo) then a.lo.n else if b.lo.Fin? then b.lo.n else if u < w then u else w;
      assert Has(a, x) && Has(b, x) && !Truth(Ne, x, x);
    }
  }

  lemma SameExactly(a: Interval, b: Interval)
    requires Inhabited(a) && Inhabited(b)
    ensures a.lo == a.hi && b.lo == b.hi && a.lo == b.lo <==> AllTrue(Eq, a, b)
  {
    var x, y := Members(a, 0);
    var u, w := Members(b, 0);
    if AllTrue(Eq, a, b) {
      assert Truth(Eq, x, u) && Truth(Eq, y, u) && Truth(Eq, x, w);
      var l, h := Members(a, x - 1);
      var l', h' := Members(a, x + 1);
      assert Truth(Eq, l, u) && Truth(Eq, h', u);
      var m, n := Members(b, u - 1);
      var m', n' := Members(b, u + 1);
      assert Truth(Eq, x, m) && Truth(Eq, x, n');
    }
  }

  lemma Swapped(p: CmpOp, q: CmpOp, a: Interval, b: Interval)
    requires AllTrue(p, a, b) && forall x, y :: Truth(p, x, y) ==> Truth(q, y, x)
    ensures AllTrue(q, b, a)
  {
    hide Truth, Has;
    forall x, y | Has(b, x) && Has(a, y) ensures Truth(q, x, y) {
      assert Truth(p, y, x);
    }
  }

  lemma TruthSwaps(a: Interval, b: Interval)
    ensures AllTrue(Slt, a, b) <==> AllTrue(Sgt, b, a)
    ensures AllTrue(Sle, a, b) <==> AllTrue(Sge, b, a)
  {
    hide AllTrue;
    if AllTrue(Slt, a, b) {
      Swapped(Slt, Sgt, a, b);
    }
    if AllTrue(Sgt, b, a) {
      Swapped(Sgt, Slt, b, a);
    }
    if AllTrue(Sle, a, b) {
      Swapped(Sle, Sge, a, b);
    }
    if AllTrue(Sge, b, a) {
      Swapped(Sge, Sle, b, a);
    }
  }

  /** A verdict is definite if and only if all pairs of members agree on it. */
  lemma CompareExactly(op: CmpOp, a: Interval, b: Interval)
    requires Inhabited(a) && Inhabited(b)
    ensures Compare(op, a, b) == Yes <==> AllTrue(SignedOf(op), a, b)
    ensures Compare(op, a, b) == No <==> AllTrue(Negate(SignedOf(op)), a, b)
  {
    LessExactly(a, b);
    LessExactly(b, a);
    ApartExactly(a, b);
    SameExactly(a, b);
    TruthSwaps(a, b);
    TruthSwaps(b, a);
    NotBoth(op, a, b);
    hide AllTrue, Inhabited, Le, Lt;
  }

  lemma NotBoth(op: CmpOp, a: Interval, b: Interval)
    requires Inhabited(a) && Inhabited(b)
    ensures !(AllTrue(SignedOf(op), a, b) && AllTrue(Negate(SignedOf(op)), a, b))
  {
    var x :| Has(a, x);
    var y :| Has(b, y);
    assert Truth(SignedOf(op), x, y) != Truth(Negate(SignedOf(op)), x, y);
  }

  ghost predicate AllSay(parts: seq<Condition>, st: State, t: Trivalent) {
    forall i: nat :: i < |parts| ==> Eval(parts[i], st) == t
  }

  ghost predicate SomeSays(parts: seq<Condition>, st: State, t: Trivalent) {
    exists i: nat :: i < |parts| && Eval(parts[i], st) == t
  }

  lemma Split(parts: seq<Condition>, st: State, t: Trivalent)
    requires parts != []
    ensures AllSay(parts, st, t) <==> Eval(parts[0], st) == t && AllSay(parts[1..], st, t)
    ensures SomeSays(parts, st, t) <==> Eval(parts[0], st) == t || SomeSays(parts[1..], st, t)
  {
    var rest := parts[1..];
    assert forall i: nat :: i < |rest| ==> rest[i] == parts[i + 1];
    if AllSay(parts, st, t) {
      forall i: nat | i < |rest| ensures Eval(rest[i], st) == t {
        assert rest[i] == parts[i + 1];
      }
    }
    if SomeSays(rest, st, t) {
      var i: nat :| i < |rest| && Eval(rest[i], st) == t;
      assert parts[i + 1] == rest[i];
    }
    if i: nat :| 0 < i < |parts| && Eval(parts[i], st) == t {
      assert rest[i - 1] == parts[i];
    }
  }

  /** A conjunction is decided as soon as its parts decide it, and so is a disjunction. */
  lemma {:induction false} PartsExactly(parts: seq<Condition>, st: State)
    ensures EvalAnd(parts, st) == Yes <==> AllSay(parts, st, Yes)
    ensures EvalAnd(parts, st) == No <==> SomeSays(parts, st, No)
    ensures EvalOr(parts, st) == Yes <==> SomeSays(parts, st, Yes)
    ensures EvalOr(parts, st) == No <==> AllSay(parts, st, No)
  {
    if parts != [] {
      Split(parts, st, Yes);
      Split(parts, st, No);
      PartsExactly(parts[1..], st);
      hide AllSay, SomeSays;
    }
  }

  // ------------------------------------------------------------ arithmetic

  /** Sums have exactly the sums of members. */
  lemma AddExactly(a: Interval, b: Interval, v: int)
    requires IntervalOk(a) && IntervalOk(b) && Inhabited(a) && Inhabited(b) && InI128(v)
    ensures Has(AddI(a, b), v) <==> exists x, y :: Has(a, x) && Has(b, y) && x + y == v
  {
    forall x, y | Has(a, x) && Has(b, y) && x + y == v ensures Has(AddI(a, b), v) {
      AddSound(a, b, x, y);
    }
    var p, q := Members(a, 0);
    var r, t := Members(b, 0);
    if Has(AddI(a, b), v) {
      var x := Summand(a, b, v);
      assert Has(a, x) && Has(b, v - x) && x + (v - x) == v;
    }
  }

  /** The part of the sum `v` that `a` contributes: as small as both allow, or as large. */
  function Summand(a: Interval, b: Interval, v: int): int
    requires a.Range? && b.Range?
  {
    if a.lo.Fin? && b.hi.Fin? then (if a.lo.n > v - b.hi.n then a.lo.n else v - b.hi.n)
    else if a.lo.Fin? then a.lo.n
    else if b.hi.Fin? then v - b.hi.n
    else if a.hi.Fin? && b.lo.Fin? then (if a.hi.n < v - b.lo.n then a.hi.n else v - b.lo.n)
    else if a.hi.Fin? then a.hi.n
    else if b.lo.Fin? then v - b.lo.n
    else 0
  }

  /** Negation has exactly the negated members, unless the smallest number is a bound. */
  lemma NegExactly(b: Interval, v: int)
    requires Inhabited(b) && b.lo != Fin(I128_MIN) && b.hi != Fin(I128_MIN)
    ensures Has(NegI(b), v) <==> Has(b, -v)
    ensures IntervalOk(b) ==> IntervalOk(NegI(b))
  {
  }

  /** Differences have exactly the differences of members, unless the smallest number is a bound of the subtrahend. */
  lemma SubExactly(a: Interval, b: Interval, v: int)
    requires IntervalOk(a) && IntervalOk(b) && Inhabited(a) && Inhabited(b) && InI128(v)
    requires b.lo != Fin(I128_MIN) && b.hi != Fin(I128_MIN)
    ensures Has(SubI(a, b), v) <==> exists x, y :: Has(a, x) && Has(b, y) && x - y == v
  {
    var w :| Has(b, w);
    NegExactly(b, -w);
    AddExactly(a, NegI(b), v);
    hide AddI, NegI, Has;
    forall x, y | Has(a, x) && Has(b, y) && x - y == v ensures Has(a, x) && Has(NegI(b), -y) && x + -y == v {
      NegExactly(b, -y);
    }
    forall x, z | Has(a, x) && Has(NegI(b), z) && x + z == v ensures Has(a, x) && Has(b, -z) && x - -z == v {
      NegExactly(b, z);
    }
  }

  /** A finite bound is the product of two members, an infinite one stands for a product that is out of range. */
  ghost predicate Reached(a: Interval, b: Interval, bound: Bound) {
    exists x, y :: Has(a, x) && Has(b, y) && ReachedBy(bound, x * y)
  }

  predicate ReachedBy(bound: Bound, v: int) {
    match bound
    case Fin(n) => v == n
    case NegInf => v < I128_MIN
    case PosInf => v > I128_MAX
  }

  /** A member that has gone as far as an end of the interval, or far beyond all 128-bit numbers. */
  ghost predicate Towards(i: Interval, end: Bound, x: int) {
    Has(i, x) &&
    match end
    case Fin(n) => x == n
    case NegInf => x < I128_MIN
    case PosInf => x > I128_MAX + 1
  }

  lemma Farthest(i: Interval, end: Bound) returns (x: int)
    requires Inhabited(i) && (end == i.lo || end == i.hi)
    ensures Towards(i, end, x)
  {
    var l, h := Members(i, I128_MIN - 1);
    var l', h' := Members(i, I128_MAX + 2);
    x := if end == i.lo then l else h';
  }

  lemma Beyond(x: int, k: int)
    requires k != 0 && (x < I128_MIN || x > I128_MAX + 1)
    ensures (x > 0) == (k > 0) ==> x * k > I128_MAX
    ensures (x > 0) != (k > 0) ==> x * k < I128_MIN
  {
    if x > 0 && k > 0 {
      ScaleUp(1, k, x);
    } else if x > 0 {
      ScaleUp(k, -1, x);
    } else if k > 0 {
      ScaleDown(1, k, x);
    } else {
      ScaleDown(k, -1, x);
    }
  }

  lemma CornerReached(a: Interval, b: Interval, p: Bound, q: Bound)
    requires IntervalOk(a) && IntervalOk(b) && Inhabited(a) && Inhabited(b)
    requires (p == a.lo || p == a.hi) && (q == b.lo || q == b.hi)
    ensures Reached(a, b, Times(p, q))
  {
    var x := Farthest(a, p);
    var y := Farthest(b, q);
    hide Inhabited;
    if p.Fin? && q.Fin? {
      SignOfProduct(p.n, q.n);
    } else if x != 0 && y != 0 {
      if p.Fin? {
        Beyond(y, x);
      } else {
        Beyond(x, y);
      }
    }
    assert ReachedBy(Times(p, q), x * y);
  }

  /** Both bounds of a product are reached: no interval with fewer numbers holds all products of members. */
  lemma MulReached(a: Interval, b: Interval)
    requires IntervalOk(a) && IntervalOk(b) && Inhabited(a) && Inhabited(b)
    ensures MulI(a, b).Range? && Reached(a, b, MulI(a, b).lo) && Reached(a, b, MulI(a, b).hi)
  {
    CornerReached(a, b, a.lo, b.lo);
    CornerReached(a, b, a.lo, b.hi);
    CornerReached(a, b, a.hi, b.lo);
    CornerReached(a, b, a.hi, b.hi);
    var p, q, r, s := Times(a.lo, b.lo), Times(a.lo, b.hi), Times(a.hi, b.lo), Times(a.hi, b.hi);
    hide Times, Reached;
    OneOf(p, q);
    OneOf(Min(p, q), r);
    OneOf(Max(p, q), r);
    OneOf(Min(Min(p, q), r), s);
    OneOf(Max(Max(p, q), r), s);
    hide Min, Max;
  }

  lemma OneOf(p: Bound, q: Bound)
    ensures (Min(p, q) == p || Min(p, q) == q) && (Max(p, q) == p || Max(p, q) == q)
  {
  }

  // ------------------------------------------------------------ lattice operations

  /** A member of `b` lies below all of `a`. */
  ghost predicate Drops(a: Interval, b: Interval) {
    exists w :: Has(b, w) && forall x :: Has(a, x) ==> w < x
  }

  ghost predicate Rises(a: Interval, b: Interval) {
    exists w :: Has(b, w) && forall x :: Has(a, x) ==> x < w
  }

  /** A bound of `a` gives way exactly when a member of `b` lies beyond it. */
  lemma LowerGives(a: Interval, b: Interval)
    requires Inhabited(a) && Inhabited(b)
    ensures Drops(a, b) <==> !Le(a.lo, b.lo)
  {
    if a.lo.Fin? {
      var low, u := Members(a, a.lo.n);
      var least, w := Members(b, low - 1);
      assert Has(b, least) && (!Le(a.lo, b.lo) ==> least < low);
    } else {
      forall w | Has(b, w) ensures exists x :: Has(a, x) && x <= w {
        var x, u := Members(a, w);
      }
    }
  }

  lemma UpperGives(a: Interval, b: Interval)
    requires Inhabited(a) && Inhabited(b)
    ensures Rises(a, b) <==> !Le(b.hi, a.hi)
  {
    if a.hi.Fin? {
      var u, high := Members(a, a.hi.n);
      var w, most := Members(b, high + 1);
      assert Has(b, most) && (!Le(b.hi, a.hi) ==> high < most);
    } else {
      forall w | Has(b, w) ensures exists x :: Has(a, x) && w <= x {
        var u, x := Members(a, w);
      }
    }
  }

  lemma Within(a: Interval, v: int)
    requires Inhabited(a)
    ensures (exists x :: Has(a, x) && x <= v) <==> Le(a.lo, Fin(v))
    ensures (exists x :: Has(a, x) && v <= x) <==> Le(Fin(v), a.hi)
  {
    var x, y := Members(a, v);
  }

  /** Widening gives up a bound of `a` exactly when a member of `b` breaks it, and keeps the other. */
  lemma WidenExactly(a: Interval, b: Interval, v: int)
    requires Inhabited(a) && Inhabited(b)
    ensures Has(Widen(a, b), v) <==>
              && (Drops(a, b) || exists x :: Has(a, x) && x <= v)
              && (Rises(a, b) || exists x :: Has(a, x) && v <= x)
  {
    LowerGives(a, b);
    UpperGives(a, b);
    Within(a, v);
    hide Drops, Rises, Inhabited;
  }

  /** The join of two states is the least one above both. */
  lemma JoinSLeast(a: State, b: State, c: State)
    ensures LeqS(a, JoinS(a, b)) && LeqS(b, JoinS(a, b))
    ensures LeqS(a, c) && LeqS(b, c) ==> LeqS(JoinS(a, b), c)
  {
    hide Leq, Join, LeqS, Pointwise;
    if a.Reachable? && b.Reachable? {
      var j := JoinS(a, b);
      LeqEverywhere(a, j);
      LeqEverywhere(b, j);
      forall r: nat ensures Leq(Find(a.regs, r), Find(j.regs, r)) && Leq(Find(b.regs, r), Find(j.regs, r)) {
        JoinAt(a, b, r);
        JoinLeast(Find(a.regs, r), Find(b.regs, r), Top);
      }
      if LeqS(a, c) && LeqS(b, c) {
        ReachableAbove(a, c);
        LeqEverywhere(a, c);
        LeqEverywhere(b, c);
        LeqEverywhere(j, c);
        forall r: nat ensures Leq(Find(j.regs, r), Find(c.regs, r)) {
          JoinAt(a, b, r);
          JoinLeast(Find(a.regs, r), Find(b.regs, r), Find(c.regs, r));
        }
      }
    } else {
      OneUnreachable(a, b);
    }
  }

  lemma JoinAt(a: State, b: State, r: nat)
    requires a.Reachable? && b.Reachable?
    ensures JoinS(a, b).Reachable? && Find(JoinS(a, b).regs, r) == Join(Find(a.regs, r), Find(b.regs, r))
  {
    FindPointwise(a.regs, b.regs, Join, r);
  }

  lemma ReachableAbove(a: State, c: State)
    requires a.Reachable? && LeqS(a, c)
    ensures c.Reachable?
  {
  }

  lemma OneUnreachable(a: State, b: State)
    requires a.Unreachable? || b.Unreachable?
    ensures JoinS(a, b) == if a.Unreachable? then b else a
    ensures LeqS(a, JoinS(a, b)) && LeqS(b, JoinS(a, b))
  {
    if a.Reachable? {
      LeqEverywhere(a, a);
      forall r: nat ensures Leq(Find(a.regs, r), Find(a.regs, r)) {
        JoinLeast(Find(a.regs, r), Bottom, Top);
      }
    } else if b.Reachable? {
      LeqEverywhere(b, b);
    }
  }

  /** States are widened register by register. */
  lemma WidenSAt(a: State, b: State, r: nat)
    requires a.Reachable? && b.Reachable?
    ensures WidenS(a, b).Reachable? && Get(WidenS(a, b), r) == Widen(Get(a, r), Get(b, r))
  {
    FindPointwise(a.regs, b.regs, Widen, r);
  }

  // ------------------------------------------------------------ one instruction

  /** A state in which every register has some value. */
  ghost predicate Fair(st: State) {
    st.Reachable? && forall r: nat :: r in st.regs ==> IntervalOk(st.regs[r]) && Inhabited(st.regs[r])
  }

  ghost function SomeMember(i: Interval): int
    requires Inhabited(i)
  {
    var v :| Has(i, v);
    v
  }

  /** A store of the state with the given values. */
  ghost function StoreWith(st: State, vals: map<nat, int>): Store
    requires Fair(st)
  {
    map r: nat | r in st.regs.Keys + vals.Keys :: if r in vals then vals[r] else SomeMember(st.regs[r])
  }

  lemma StoreWithModels(st: State, vals: map<nat, int>)
    requires Fair(st) && forall r: nat :: r in vals ==> Has(Get(st, r), vals[r])
    ensures Models(st, StoreWith(st, vals))
    ensures forall r: nat :: r in vals ==> Val(StoreWith(st, vals), r) == vals[r]
  {
  }

  lemma FairOperand(op: Operand, st: State)
    requires Fair(st) && OperandSmall(op)
    ensures IntervalOk(EvalOperand(op, st)) && Inhabited(EvalOperand(op, st))
  {
    match op
    case Reg(r) =>
      assert r !in st.regs ==> Has(Get(st, r), 0);
    case IntConst(c) => assert Has(EvalOperand(op, st), c);
    case _ => assert Has(EvalOperand(op, st), 0);
  }

  /** The operands are not one register twice. */
  predicate Separate(lhs: Operand, rhs: Operand) {
    lhs.Reg? ==> lhs != rhs
  }

  /** Pairs of members are pairs of values in one store. */
  lemma PairArises(lhs: Operand, rhs: Operand, st: State, x: int, y: int) returns (s: Store)
    requires Fair(st) && Separate(lhs, rhs) && Has(EvalOperand(lhs, st), x) && Has(EvalOperand(rhs, st), y)
    ensures Models(st, s) && Denotes(lhs, s, x) && Denotes(rhs, s, y)
  {
    var left: map<nat, int> := if lhs.Reg? then map[lhs.r := x] else map[];
    var both: map<nat, int> := if rhs.Reg? then left[rhs.r := y] else left;
    StoreWithModels(st, both);
    s := StoreWith(st, both);
  }

  /** The values of a sum, a difference, a copy or an unknown come out exactly; products and tests are apart. */
  predicate Direct(rv: RValue, st: State) {
    match rv
    case Use(_) => true
    case Bin(Add, lhs, rhs) => Separate(lhs, rhs)
    case Bin(Sub, lhs, rhs) => Separate(lhs, rhs) && EvalOperand(rhs, st).Range? &&
                               EvalOperand(rhs, st).lo != Fin(I128_MIN) && EvalOperand(rhs, st).hi != Fin(I128_MIN)
    case Bin(OtherBin, _, _) => true
    case Cast(op, _, _) => op != ZExt
    case Select => true
    case _ => false
  }

  ghost predicate Results(rv: RValue, st: State, v: int) {
    exists s: Store :: Models(st, s) && Evaluates(rv, s, v)
  }

  lemma OperandExactly(op: Operand, st: State, v: int)
    requires Fair(st)
    ensures Has(EvalOperand(op, st), v) <==> exists s: Store :: Models(st, s) && Denotes(op, s, v)
  {
    if Has(EvalOperand(op, st), v) {
      var s := PairArises(op, IntConst(0), st, v, 0);
    }
    forall s: Store | Models(st, s) && Denotes(op, s, v) ensures Has(EvalOperand(op, st), v) {
      EvalOperandSound(op, st, s, v);
    }
  }

  /** The members of a sum or difference are those of pairs of members. */
  lemma PairsExactly(bop: BinOp, a: Interval, b: Interval, v: int)
    requires IntervalOk(a) && IntervalOk(b) && Inhabited(a) && Inhabited(b) && InI128(v) && (bop == Add || bop == Sub)
    requires bop == Sub ==> b.lo != Fin(I128_MIN) && b.hi != Fin(I128_MIN)
    ensures Has(if bop == Add then AddI(a, b) else SubI(a, b), v) <==>
            exists x, y :: Has(a, x) && Has(b, y) && Computes(bop, x, y, v)
  {
    hide AddI, SubI, Inhabited, Has, IntervalOk;
    if bop == Add {
      AddExactly(a, b, v);
      assert forall x, y :: Computes(bop, x, y, v) <==> x + y == v;
    } else {
      SubExactly(a, b, v);
      assert forall x, y :: Computes(bop, x, y, v) <==> x - y == v;
    }
  }

  lemma SumExactly(bop: BinOp, lhs: Operand, rhs: Operand, st: State, v: int)
    requires Fair(st) && (bop == Add || bop == Sub) && Direct(Bin(bop, lhs, rhs), st) && InI128(v)
    requires OperandSmall(lhs) && OperandSmall(rhs)
    ensures Has(EvalRValue(Bin(bop, lhs, rhs), st), v) <==> Results(Bin(bop, lhs, rhs), st, v)
  {
    var a, b := EvalOperand(lhs, st), EvalOperand(rhs, st);
    FairOperand(lhs, st);
    FairOperand(rhs, st);
    PairsExactly(bop, a, b, v);
    hide Fair, AddI, SubI, Inhabited, Models, Has, Denotes, IntervalOk, Computes, EvalOperand;
    if Has(EvalRValue(Bin(bop, lhs, rhs), st), v) {
      var x, y :| Has(a, x) && Has(b, y) && Computes(bop, x, y, v);
      var s := PairArises(lhs, rhs, st, x, y);
    }
    if s: Store :| Models(st, s) && Evaluates(Bin(bop, lhs, rhs), s, v) {
      var x, y :| Denotes(lhs, s, x) && Denotes(rhs, s, y) && Computes(bop, x, y, v);
      EvalOperandSound(lhs, st, s, x);
      EvalOperandSound(rhs, st, s, y);
    }
  }

  /** The interval of a direct result is exactly the set of values it has in the state's stores. */
  lemma ResultExactly(inst: Inst, st: State, v: int)
    requires Fair(st) && inst.Assign? && InstSmall(inst) && Direct(inst.value, st) && InI128(v)
    ensures Has(EvalRValue(inst.value, st), v) <==> Results(inst.value, st, v)
  {
    StoreWithModels(st, map[]);
    var s := StoreWith(st, map[]);
    match inst.value
    case Use(op) => OperandExactly(op, st, v);
    case Bin(bop, lhs, rhs) =>
      if bop == OtherBin {
        var x, y := SomeValueOf(lhs, s), SomeValueOf(rhs, s);
        assert Denotes(lhs, s, x) && Denotes(rhs, s, y) && Computes(bop, x, y, v);
        assert Evaluates(inst.value, s, v);
      } else {
        SumExactly(bop, lhs, rhs, st, v);
      }
    case Cast(op, _, operand) =>
      OperandExactly(operand, st, v);
      assert op != SExt ==> Evaluates(inst.value, s, v);
    case Select => assert Evaluates(inst.value, s, v);
  }

  function SomeValueOf(op: Operand, s: Store): (v: int)
    ensures Denotes(op, s, v)
  {
    match op
    case Reg(r) => Val(s, r)
    case IntConst(c) => c
    case _ => 0
  }

  /** The value is that of the register after the instruction, from some store of the state. */
  ghost predicate Arises(inst: Inst, st: State, r: nat, v: int) {
    exists s: Store, s': Store :: Models(st, s) && Steps(inst, s, s') && Val(s', r) == v
  }

  lemma StepOf(inst: Inst, s: Store) returns (s': Store)
    ensures Steps(inst, s, s')
    ensures forall r: nat :: DefinedReg(inst) != Some(r) ==> Val(s', r) == Val(s, r)
  {
    match inst
    case Assign(dst, rv) =>
      var v := ValueOf(rv, s);
      s' := s[dst := v];
    case Define(dst) => s' := s[dst := 0];
    case Effect => s' := s;
  }

  lemma ValueOf(rv: RValue, s: Store) returns (v: int)
    ensures Evaluates(rv, s, v)
  {
    match rv
    case Use(op) => v := SomeValueOf(op, s);
    case Bin(bop, lhs, rhs) =>
      var x, y := SomeValueOf(lhs, s), SomeValueOf(rhs, s);
      v := match bop case Add => x + y case Sub => x - y case _ => x * y;
      assert Computes(bop, x, y, v);
    case Cmp(cop, lhs, rhs) =>
      var x, y := SomeValueOf(lhs, s), SomeValueOf(rhs, s);
      v := if Truth(cop, x, y) then 1 else 0;
      assert Denotes(lhs, s, x) && Denotes(rhs, s, y);
    case Cast(castOp, bits, operand) =>
      var x := SomeValueOf(operand, s);
      v := if castOp == ZExt then ZeroExtended(bits, x) else x;
      assert Denotes(operand, s, x);
    case Select => v := 0;
  }

  /** A register the instruction does not write keeps exactly its values. */
  lemma OthersKept(inst: Inst, st: State, r: nat, v: int)
    requires Fair(st) && DefinedReg(inst) != Some(r)
    ensures Has(Get(ApplyInst(inst, st), r), v) <==> Arises(inst, st, r, v)
  {
    if Has(Get(st, r), v) {
      StoreWithModels(st, map[r := v]);
      var s' := StepOf(inst, StoreWith(st, map[r := v]));
    }
    forall s: Store, s': Store | Models(st, s) && Steps(inst, s, s') ensures Val(s', r) == Val(s, r) {
    }
    hide EvalRValue, Evaluates;
  }

  /** After an instruction whose result is direct or unknown every register has exactly the values it can have. */
  lemma ApplyInstExactly(inst: Inst, st: State, r: nat, v: int)
    requires Fair(st) && InstSmall(inst) && (inst.Assign? ==> Direct(inst.value, st)) && InI128(v)
    ensures Has(Get(ApplyInst(inst, st), r), v) <==> Arises(inst, st, r, v)
  {
    if DefinedReg(inst) != Some(r) {
      OthersKept(inst, st, r, v);
    } else {
      StoreWithModels(st, map[]);
      var s := StoreWith(st, map[]);
      if inst.Define? {
        assert Steps(inst, s, s[r := v]);
      } else {
        ResultExactly(inst, st, v);
        hide EvalRValue, Evaluates, Models, Direct, InstSmall, Fair;
        if t: Store :| Models(st, t) && Evaluates(inst.value, t, v) {
          assert Steps(inst, t, t[r := v]);
        }
      }
    }
  }

  // ------------------------------------------------------------ guards on edges

  /** The register `k` copies back from `reg`, as long as there is one. */
  function Link(copies: map<nat, nat>, reg: nat, k: nat): Option<nat> {
    if k == 0 then Some(reg)
    else
      match Link(copies, reg, k - 1)
      case Some(r) => if r in copies && copies[r] != r then Some(copies[r]) else None
      case None => None
  }

  lemma {:induction false} LinkNext(copies: map<nat, nat>, reg: nat, k: nat)
    requires Link(copies, reg, k + 1).Some?
    ensures reg in copies && copies[reg] != reg && Link(copies, copies[reg], k) == Link(copies, reg, k + 1)
  {
    if k > 0 {
      LinkNext(copies, reg, k - 1);
    }
  }

  lemma {:induction false} RefineShrinks(st: State, reg: nat, iv: Interval, copies: map<nat, nat>, n: nat, c: nat,
                                         v: int)
    requires Has(Get(RefineReg(st, reg, iv, copies, n), c), v)
    ensures Has(Get(st, c), v)
    decreases n
  {
    if n > 0 {
      var next := Put(st, reg, Meet(Get(st, reg), iv));
      if reg in copies && copies[reg] != reg {
        RefineShrinks(next, copies[reg], iv, copies, n - 1, c, v);
      }
      MeetExact(Get(st, reg), iv, v);
    }
  }

  /** Every register of the first `n` along the copies is cut to the interval. */
  lemma {:induction false} ChainCut(st: State, reg: nat, iv: Interval, copies: map<nat, nat>, n: nat, k: nat, c: nat,
                                    v: int)
    requires k < n && Link(copies, reg, k) == Some(c) && Has(Get(RefineReg(st, reg, iv, copies, n), c), v)
    ensures Has(iv, v)
    decreases n
  {
    var next := Put(st, reg, Meet(Get(st, reg), iv));
    if k == 0 {
      MeetExact(Get(st, reg), iv, v);
      if reg in copies && copies[reg] != reg {
        RefineShrinks(next, copies[reg], iv, copies, n - 1, c, v);
      }
    } else {
      LinkNext(copies, reg, k - 1);
      ChainCut(next, copies[reg], iv, copies, n - 1, k - 1, c, v);
    }
  }

  lemma SideShrinks(st: State, side: Operand, iv: Interval, guard: Option<Interval>, copies: map<nat, nat>, c: nat,
                    v: int)
    requires Has(Get(RefineSide(st, side, iv, guard, copies), c), v)
    ensures Has(Get(st, c), v)
  {
    if side.Reg? && guard.Some? {
      RefineShrinks(st, side.r, Meet(iv, guard.value), copies, COPY_LIMIT, c, v);
    }
  }

  lemma SideCut(st: State, side: Operand, iv: Interval, guard: Interval, copies: map<nat, nat>, k: nat, c: nat, v: int)
    requires side.Reg? && k < 64 && Link(copies, side.r, k) == Some(c)
    requires Has(Get(RefineSide(st, side, iv, Some(guard), copies), c), v)
    ensures Has(guard, v)
  {
    ChainCut(st, side.r, Meet(iv, guard), copies, COPY_LIMIT, k, c, v);
    MeetExact(iv, guard, v);
  }

  /** Some value of the other side makes the test true. */
  ghost predicate Passable(op: CmpOp, left: bool, other: Interval, v: int) {
    exists w :: Has(other, w) && if left then Truth(op, v, w) else Truth(op, w, v)
  }

  lemma GuardExactly(op: CmpOp, left: bool, other: Interval, v: int)
    requires IntervalOk(other) && (other.Bottom? || Inhabited(other)) && InI128(v) && !IsUnsigned(op) && op != Ne
    ensures var guard := if left then LeftGuard(op, other) else RightGuard(op, other);
            guard.Some? && (Has(guard.value, v) <==> Passable(op, left, other, v))
  {
    UpperExactly(other, true, v);
    UpperExactly(other, false, v);
    LowerExactly(other, true, v);
    LowerExactly(other, false, v);
    hide AsUpper, AsLower, Inhabited, IntervalOk;
    assert Has(other, v) <==> exists w :: Has(other, w) && v == w;
  }

  /**
   After a signed test has been asserted, each of the first 64 registers along the copies of a side
   keeps only numbers for which the other side has a partner that passes the test.
   */
  lemma RefineCuts(st: State, cop: CmpOp, lhs: Operand, rhs: Operand, negate: bool, copies: map<nat, nat>,
                   left: bool, k: nat, c: nat, v: int)
    requires Fair(st) && OperandSmall(lhs) && OperandSmall(rhs) && k < 64 && InI128(v)
    requires var side := if left then lhs else rhs; side.Reg? && Link(copies, side.r, k) == Some(c)
    requires var op := if negate then Negate(cop) else cop; !IsUnsigned(op) && op != Ne
    requires Has(Get(RefineByCmp(st, cop, lhs, rhs, negate, copies), c), v)
    ensures Passable(if negate then Negate(cop) else cop, left, EvalOperand(if left then rhs else lhs, st), v)
  {
    var op := if negate then Negate(cop) else cop;
    var li, ri := EvalOperand(lhs, st), EvalOperand(rhs, st);
    FairOperand(lhs, st);
    FairOperand(rhs, st);
    GuardExactly(op, true, ri, v);
    GuardExactly(op, false, li, v);
    hide Fair, Inhabited, IntervalOk, LeftGuard, RightGuard, RefineSide, EvalOperand, Passable, Has;
    var half := RefineSide(st, lhs, li, LeftGuard(op, ri), copies);
    if left {
      SideShrinks(half, rhs, ri, RightGuard(op, li), copies, c, v);
      SideCut(st, lhs, li, LeftGuard(op, ri).value, copies, k, c, v);
    } else {
      SideCut(half, rhs, ri, RightGuard(op, li).value, copies, k, c, v);
    }
  }

  // ------------------------------------------------------------ binding on edges

  /** The register, after the parameters are set: its own value, or that of its argument. */
  function Carried(params: seq<nat>, args: seq<Operand>, q: nat): Option<Operand> {
    if q !in params then Some(Reg(q))
    else
      var i := LastIndex(params, q);
      if i < |args| then Some(args[i]) else None
  }

  function LastIndex(params: seq<nat>, q: nat): (i: nat)
    requires q in params
    ensures i < |params| && params[i] == q && forall j :: i < j < |params| ==> params[j] != q
  {
    if params[|params| - 1] == q then |params| - 1 else LastIndex(params[..|params| - 1], q)
  }

  /** Binding gives a parameter its argument's interval, the rest keep theirs, and nothing is read after it is set. */
  lemma {:induction false} BindExactly(params: seq<nat>, args: seq<Operand>, n: nat, exit: State, q: nat)
    requires n <= |params| && exit.Reachable?
    ensures BindFirst(params, args, n, exit, exit).Reachable?
    ensures Get(BindFirst(params, args, n, exit, exit), q) ==
            match Carried(params[..n], args, q) case Some(op) => EvalOperand(op, exit) case None => Top
  {
    if n > 0 {
      BindExactly(params, args, n - 1, exit, q);
      var init, upto := params[..n - 1], params[..n];
      assert upto == init + [params[n - 1]];
      assert upto[..|upto| - 1] == init;
    }
  }

  /** The guarded side of a two-way branch, as the source's edge transfer sees it. */
  ghost predicate Decides(b: Block, to: Block, cmps: map<nat, RValue>, cop: CmpOp, lhs: Operand, rhs: Operand) {
    && b.term.CondBr? && b.term.cond.Reg? && b.term.cond.r in cmps && cmps[b.term.cond.r] == Cmp(cop, lhs, rhs)
    && b.term.thenBlk != b.term.elseBlk && (to.id == b.term.thenBlk || to.id == b.term.elseBlk)
  }

  /**
   On the edge to one side of a branch on a signed test, what a register or parameter keeps of a
   compared register, or of what that was copied from, passes the test with some partner.
   */
  lemma EdgeCuts(b: Block, to: Block, exit: State, cmps: map<nat, RValue>, copies: map<nat, nat>,
                 cop: CmpOp, lhs: Operand, rhs: Operand, left: bool, k: nat, c: nat, q: nat, v: int)
    requires Decides(b, to, cmps, cop, lhs, rhs) && Fair(exit) && OperandSmall(lhs) && OperandSmall(rhs)
    requires k < 64 && InI128(v)
    requires var side := if left then lhs else rhs; side.Reg? && Link(copies, side.r, k) == Some(c)
    requires var op := if to.id == b.term.thenBlk then cop else Negate(cop); !IsUnsigned(op) && op != Ne
    requires var args := if to.id == b.term.thenBlk then b.term.thenArgs else b.term.elseArgs;
             Carried(to.params, args, q) == Some(Reg(c))
    requires Has(Get(EdgeState(b, to, exit, cmps, copies), q), v)
    ensures Passable(if to.id == b.term.thenBlk then cop else Negate(cop), left,
                     EvalOperand(if left then rhs else lhs, exit), v)
  {
    var args := if to.id == b.term.thenBlk then b.term.thenArgs else b.term.elseArgs;
    var refined := RefineByCmp(exit, cop, lhs, rhs, to.id == b.term.elseBlk, copies);
    assert Guarded(b, to.id, exit, cmps, copies) == refined;
    assert MatchingArgs(b.term, to.id) == [args];
    assert BindLists(to.params, [args], 0, refined) == State.Unreachable;
    assert EdgeState(b, to, exit, cmps, copies) == BindFirst(to.params, args, |to.params|, refined, refined);
    RefineReachable(exit, cop, lhs, rhs, to.id == b.term.elseBlk, copies);
    BindExactly(to.params, args, |to.params|, refined, q);
    assert to.params[..|to.params|] == to.params;
    RefineCuts(exit, cop, lhs, rhs, to.id == b.term.elseBlk, copies, left, k, c, v);
  }

  lemma {:induction false} RegReachable(st: State, reg: nat, iv: Interval, copies: map<nat, nat>, n: nat)
    requires st.Reachable?
    ensures RefineReg(st, reg, iv, copies, n).Reachable?
    decreases n
  {
    if n > 0 && reg in copies && copies[reg] != reg {
      RegReachable(Put(st, reg, Meet(Get(st, reg), iv)), copies[reg], iv, copies, n - 1);
    }
  }

  lemma SideReachable(st: State, side: Operand, iv: Interval, guard: Option<Interval>, copies: map<nat, nat>)
    requires st.Reachable?
    ensures RefineSide(st, side, iv, guard, copies).Reachable?
  {
    if side.Reg? && guard.Some? {
      RegReachable(st, side.r, Meet(iv, guard.value), copies, COPY_LIMIT);
    }
  }

  lemma RefineReachable(st: State, cop: CmpOp, lhs: Operand, rhs: Operand, negate: bool, copies: map<nat, nat>)
    requires st.Reachable?
    ensures RefineByCmp(st, cop, lhs, rhs, negate, copies).Reachable?
  {
    var op := if negate then Negate(cop) else cop;
    var li, ri := EvalOperand(lhs, st), EvalOperand(rhs, st);
    hide RefineSide;
    SideReachable(st, lhs, li, LeftGuard(op, ri), copies);
    SideReachable(RefineSide(st, lhs, li, LeftGuard(op, ri), copies), rhs, ri, RightGuard(op, li), copies);
  }

  // ------------------------------------------------------------ blocks and edges of a function

  /** The states before and after each of the first `n` instructions. */
  ghost predicate Folds(insts: seq<Inst>, n: nat, st: State, sts: seq<State>) {
    && n <= |insts| && |sts| == n + 1 && sts[0] == st
    && forall i: nat, j: nat :: j == i + 1 <= n ==> sts[j] == ApplyInst(insts[i], sts[i])
  }

  lemma {:induction false} FirstFolds(insts: seq<Inst>, n: nat, st: State) returns (sts: seq<State>)
    requires n <= |insts|
    ensures Folds(insts, n, st, sts) && sts[n] == ApplyFirst(insts, n, st)
  {
    if n == 0 {
      sts := [st];
    } else {
      var init := FirstFolds(insts, n - 1, st);
      sts := init + [ApplyInst(insts[n - 1], init[n - 1])];
      hide ApplyInst;
      forall i: nat, j: nat | j == i + 1 <= n ensures sts[j] == ApplyInst(insts[i], sts[i]) {
        if j < n {
          assert init[j] == ApplyInst(insts[i], init[i]);
        }
      }
    }
  }

  /** A block's transfer applies every instruction of the node's block, in order. */
  lemma BlockFolds(f: Function, cfg: Cfg, u: nat, st: State) returns (sts: seq<State>)
    requires DistinctIds(f) && IsCfg(f, cfg) && u < |f.blocks| && st.Reachable?
    ensures Folds(f.blocks[u].insts, |f.blocks[u].insts|, st, sts)
    ensures TransferBlock(f, cfg, u, st) == sts[|f.blocks[u].insts|]
  {
    LookupNode(f, u);
    assert cfg.blocks[u] == f.blocks[u].id;
    hide Lookup, DistinctIds, IsCfg, ApplyInst, ApplyFirst;
    sts := FirstFolds(f.blocks[u].insts, |f.blocks[u].insts|, st);
  }

  lemma EdgeReads(f: Function, cfg: Cfg, from: nat, to: nat, exit: State, cmps: map<nat, RValue>, copies: map<nat, nat>)
    requires DistinctIds(f) && IsCfg(f, cfg) && from < |f.blocks| && to < |f.blocks| && exit.Reachable?
    ensures TransferEdge(f, cfg, from, to, exit, cmps, copies) ==
            EdgeState(f.blocks[from], f.blocks[to], exit, cmps, copies)
  {
    LookupNode(f, from);
    LookupNode(f, to);
    assert cfg.blocks[from] == f.blocks[from].id && cfg.blocks[to] == f.blocks[to].id;
    hide Lookup, DistinctIds, IsCfg, EdgeState;
  }

  /**
   Along an edge of the function to one side of a branch on a signed test, what a register or parameter
   keeps of a compared register, or of what that was copied from, passes the test with some partner.
   */
  lemma TransferCuts(f: Function, cfg: Cfg, from: nat, to: nat, exit: State, cmps: map<nat, RValue>, copies: map<nat,
                     nat>,
                     cop: CmpOp, lhs: Operand, rhs: Operand, left: bool, k: nat, c: nat, q: nat, v: int)
    requires DistinctIds(f) && IsCfg(f, cfg) && from < |f.blocks| && to < |f.blocks|
    requires Decides(f.blocks[from], f.blocks[to], cmps, cop, lhs, rhs)
    requires Fair(exit) && OperandSmall(lhs) && OperandSmall(rhs) && k < 64 && InI128(v)
    requires var side := if left then lhs else rhs; side.Reg? && Link(copies, side.r, k) == Some(c)
    requires var t, id := f.blocks[from].term, f.blocks[to].id;
             var op := if id == t.thenBlk then cop else Negate(cop); !IsUnsigned(op) && op != Ne
    requires var t, id := f.blocks[from].term, f.blocks[to].id;
             Carried(f.blocks[to].params, if id == t.thenBlk then t.thenArgs else t.elseArgs, q) == Some(Reg(c))
    requires Has(Get(TransferEdge(f, cfg, from, to, exit, cmps, copies), q), v)
    ensures var t, id := f.blocks[from].term, f.blocks[to].id;
            Passable(if id == t.thenBlk then cop
                     else Negate(cop), left, EvalOperand(if left then rhs else lhs, exit), v)
  {
    EdgeReads(f, cfg, from, to, exit, cmps, copies);
    EdgeCuts(f.blocks[from], f.blocks[to], exit, cmps, copies, cop, lhs, rhs, left, k, c, q, v);
  }

  // ------------------------------------------------------------ what queries read

  /** Queries before instruction `i` read the block's entry state with the first `i` instructions applied. */
  lemma QueriesRead(f: Function, a: S.Analysis, u: nat, i: nat, reg: nat, c: Condition) returns (sts: seq<State>)
    requires DistinctIds(f) && IsCfg(f, a.cfg) && u < |f.blocks| && |a.solution.inStates| == |f.blocks|
    requires i <= |f.blocks[u].insts|
    ensures Folds(f.blocks[u].insts, i, a.solution.inStates[u], sts)
    ensures sts[i].Reachable? ==> S.IntervalAt(f, a, f.blocks[u].id, i, reg) == Get(sts[i], reg)
    ensures S.EvalCondition(f, a, f.blocks[u].id, i, c) == if sts[i].Reachable? then Eval(c, sts[i]) else Yes
  {
    LookupNode(f, u);
    NodeIndex(f, a.cfg, u);
    hide Lookup, DistinctIds, IsCfg, ApplyInst, ApplyFirst, Eval;
    sts := FirstFolds(f.blocks[u].insts, i, a.solution.inStates[u]);
  }

  lemma NodeIndex(f: Function, cfg: Cfg, u: nat)
    requires DistinctIds(f) && IsCfg(f, cfg) && u < |f.blocks|
    ensures f.blocks[u].id in cfg.indexOf && cfg.indexOf[f.blocks[u].id] == u
  {
    var id := f.blocks[u].id;
    assert id in cfg.indexOf && f.blocks[cfg.indexOf[id]].id == id;
  }
}
