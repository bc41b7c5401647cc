/**
 Three-valued evaluation of conditions under an interval state
 (crates/absint/src/cond.rs, crates/absint/src/analysis.rs).
 */
module Conditions {
  import opened Ir
  import opened Intervals
  import opened Env
  import opened IntervalAnalysis

  datatype Condition =
    | Always
    | Test(op: CmpOp, lhs: Operand, rhs: Operand)
    | And(parts: seq<Condition>)
    | Or(parts: seq<Condition>)
    | Not(inner: Condition)

  datatype Trivalent = Yes | No | Unknown

  function Flip(t: Trivalent): Trivalent {
    match t
    case Yes => No
    case No => Yes
    case Unknown => Unknown
  }

  predicate Lt(a: Bound, b: Bound) {
    Le(a, b) && !Le(b, a)
  }

  function Decide(yes: bool, no: bool): Trivalent {
    if yes then Yes else if no then No else Unknown
  }

  /** Compare two intervals; unsigned predicates are read as signed ones. */
  function Compare(op: CmpOp, a: Interval, b: Interval): Trivalent {
    if a.Bottom? || b.Bottom? then Unknown
    else
      match op
      case Slt => Decide(Lt(a.hi, b.lo), Le(b.hi, a.lo))
      case Ult => Decide(Lt(a.hi, b.lo), Le(b.hi, a.lo))
      case Sle => Decide(Le(a.hi, b.lo), Lt(b.hi, a.lo))
      case Ule => Decide(Le(a.hi, b.lo), Lt(b.hi, a.lo))
      case Sgt => Decide(Lt(b.hi, a.lo), Le(a.hi, b.lo))
      case Ugt => Decide(Lt(b.hi, a.lo), Le(a.hi, b.lo))
      case Sge => Decide(Le(b.hi, a.lo), Lt(a.hi, b.lo))
      case Uge => Decide(Le(b.hi, a.lo), Lt(a.hi, b.lo))
      case Eq => CompareEq(a, b)
      case Ne => Flip(CompareEq(a, b))
  }

  function CompareEq(a: Interval, b: Interval): Trivalent
    requires a.Range? && b.Range?
  {
    if Lt(a.hi, b.lo) || Lt(b.hi, a.lo) then No
    else if a.lo == a.hi && b.lo == b.hi && a.lo == b.lo then Yes
    else Unknown
  }

  function Eval(c: Condition, st: State): Trivalent {
    match c
    case Always => Yes
    case Test(op, lhs, rhs) => Compare(op, EvalOperand(lhs, st), EvalOperand(rhs, st))
    case And(parts) => EvalAnd(parts, st)
    case Or(parts) => EvalOr(parts, st)
    case Not(inner) => Flip(Eval(inner, st))
  }

  /** False as soon as one part is; otherwise unknown if some part is. */
  function EvalAnd(parts: seq<Condition>, st: State): Trivalent {
    if parts == [] then Yes
    else
      match Eval(parts[0], st)
      case No => No
      case Unknown => if EvalAnd(parts[1..], st) == No then No else Unknown
      case Yes => EvalAnd(parts[1..], st)
  }

  function EvalOr(parts: seq<Condition>, st: State): Trivalent {
    if parts == [] then No
    else
      match Eval(parts[0], st)
      case Yes => Yes
      case Unknown => if EvalOr(parts[1..], st) == Yes then Yes else Unknown
      case No => EvalOr(parts[1..], st)
  }

  // ------------------------------------------------------------- meaning

  /** The value of an operand, with a number chosen for each unknown constant. */
  function Value(op: Operand, s: Store, o: nat -> int): int {
    match op
    case Reg(r) => Val(s, r)
    case IntConst(c) => c
    case NullConst => 0
    case OpaqueConst(id) => o(id)
  }

  ghost predicate Holds(c: Condition, s: Store, o: nat -> int) {
    match c
    case Always => true
    case Test(op, lhs, rhs) => Truth(op, Value(lhs, s, o), Value(rhs, s, o))
    case And(parts) => forall p :: p in parts ==> Holds(p, s, o)
    case Or(parts) => exists p :: p in parts && Holds(p, s, o)
    case Not(inner) => !Holds(inner, s, o)
  }

  /** Every unsigned test in the condition compares operands of one sign. */
  ghost predicate SignsAgree(c: Condition, s: Store, o: nat -> int) {
    match c
    case Always => true
    case Test(op, lhs, rhs) =>
      IsUnsigned(op) ==>
        In64(Value(lhs, s, o)) && In64(Value(rhs, s, o)) && ((Value(lhs, s, o) < 0) <==> (Value(rhs, s, o) < 0))
    case And(parts) => forall p :: p in parts ==> SignsAgree(p, s, o)
    case Or(parts) => forall p :: p in parts ==> SignsAgree(p, s, o)
    case Not(inner) => SignsAgree(inner, s, o)
  }

  lemma CompareSound(op: CmpOp, a: Interval, b: Interval, x: int, y: int)
    requires Has(a, x) && Has(b, y)
    requires IsUnsigned(op) ==> In64(x) && In64(y) && ((x < 0) <==> (y < 0))
    ensures Compare(op, a, b) == Yes ==> Truth(op, x, y)
    ensures Compare(op, a, b) == No ==> !Truth(op, x, y)
  {
  }

  /** A definite verdict on an unsigned test is right for a pair of members if and only if they have one sign. */
  lemma UnsignedVerdictExactly(op: CmpOp, a: Interval, b: Interval, x: int, y: int)
    requires Has(a, x) && Has(b, y) && IsUnsigned(op) && In64(x) && In64(y) && Compare(op, a, b) != Unknown
    ensures (Compare(op, a, b) == Yes <==> Truth(op, x, y)) <==> ((x < 0) <==> (y < 0))
  {
    UnsignedAgreesExactly(op, x, y);
    CompareSound(SignedOf(op), a, b, x, y);
  }

  lemma ValueSound(op: Operand, st: State, s: Store, o: nat -> int)
    requires Models(st, s)
    ensures Has(EvalOperand(op, st), Value(op, s, o))
  {
  }

  /** A definite answer is right in every store the state stands for. */
  lemma {:induction false} EvalSound(c: Condition, st: State, s: Store, o: nat -> int)
    requires Models(st, s) && SignsAgree(c, s, o)
    ensures Eval(c, st) == Yes ==> Holds(c, s, o)
    ensures Eval(c, st) == No ==> !Holds(c, s, o)
    decreases c, 1
  {
    match c
    case Always =>
    case Test(op, lhs, rhs) =>
      ValueSound(lhs, st, s, o);
      ValueSound(rhs, st, s, o);
      CompareSound(op, EvalOperand(lhs, st), EvalOperand(rhs, st), Value(lhs, s, o), Value(rhs, s, o));
    case And(parts) => EvalAndSound(parts, st, s, o);
    case Or(parts) => EvalOrSound(parts, st, s, o);
    case Not(inner) => EvalSound(inner, st, s, o);
  }

  lemma {:induction false} EvalAndSound(parts: seq<Condition>, st: State, s: Store, o: nat -> int)
    requires Models(st, s) && forall p :: p in parts ==> SignsAgree(p, s, o)
    ensures EvalAnd(parts, st) == Yes ==> forall p :: p in parts ==> Holds(p, s, o)
    ensures EvalAnd(parts, st) == No ==> exists p :: p in parts && !Holds(p, s, o)
    decreases parts, 0
  {
    if parts != [] {
      assert parts == [parts[0]] + parts[1..];
      EvalSound(parts[0], st, s, o);
      EvalAndSound(parts[1..], st, s, o);
    }
  }

  lemma {:induction false} EvalOrSound(parts: seq<Condition>, st: State, s: Store, o: nat -> int)
    requires Models(st, s) && forall p :: p in parts ==> SignsAgree(p, s, o)
    ensures EvalOr(parts, st) == Yes ==> exists p :: p in parts && Holds(p, s, o)
    ensures EvalOr(parts, st) == No ==> forall p :: p in parts ==> !Holds(p, s, o)
    decreases parts, 0
  {
    if parts != [] {
      assert parts == [parts[0]] + parts[1..];
      EvalSound(parts[0], st, s, o);
      EvalOrSound(parts[1..], st, s, o);
    }
  }

  /** Without the sign condition a definite answer can be wrong: `-1 < 0` is decided, but not as unsigned numbers. */
  lemma UnsignedCompareMisleads()
    ensures Compare(Ult, Singleton(-1), Singleton(0)) == Yes && !Truth(Ult, -1, 0)
  {
  }
}
