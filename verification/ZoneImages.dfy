/**
 What instructions do to a closed zone, exactly: affine ones take it to its
 image, all others to its projection (crates/absint/src/relational.rs:115-153).
 */
module ZoneImages {
  import opened Wrappers
  import opened Ir
  import opened Zones
  import opened Relational

  /** No bound of the zone can be tightened, or the zone is empty. */
  ghost predicate Tight(z: Zone) {
    z.bottom || (Square(z.m) && Closed(z.m))
  }

  /** Some value in place of node `d` makes the valuation one of the zone. */
  ghost predicate Projects(z: Zone, d: nat, v: seq<int>) {
    exists x :: InWith(z, v, d, x)
  }

  lemma ForgetProjects(z: Zone, d: nat, n: nat, v: seq<int>)
    requires Sized(z, n) && Tight(z) && 0 < d < n
    ensures In(Forget(z, d), v) <==> |v| == n && Projects(z, d, v)
    ensures Tight(Forget(z, d)) && Sized(Forget(z, d), n)
  {
    if z.bottom {
      assert Forget(z, d).bottom;
    } else {
      ForgetExact(z, d, n, v);
      ForgetClosed(z, d, n);
      ForgetSized(z, d, n);
    }
  }

  lemma AddTight(z: Zone, a: nat, b: nat, c: int, n: nat, v: seq<int>)
    requires Sized(z, n) && a < n && b < n
    ensures In(AddConstraint(z, a, b, c), v) <==> In(z, v) && v[a] - v[b] <= c
    ensures Tight(AddConstraint(z, a, b, c)) && Sized(AddConstraint(z, a, b, c), n)
  {
    AddConstraintExact(z, a, b, c, n, v);
    AddConstraintSized(z, a, b, c, n);
  }

  /** Setting node `d` to node `s` plus `c`. */
  lemma SetExact(z: Zone, d: nat, s: nat, c: int, n: nat, v: seq<int>)
    requires Sized(z, n) && Tight(z) && 0 < d < n && s < n
    ensures In(SetAffine(z, d, s, c), v) <==> |v| == n && Projects(z, d, v) && v[d] <= v[s] + c && v[s] - v[d] <= -c
    ensures Tight(SetAffine(z, d, s, c)) && Sized(SetAffine(z, d, s, c), n)
  {
    hide In, Tight, Forget, AddConstraint, Projects;
    ForgetProjects(z, d, n, v);
    var f := Forget(z, d);
    AddTight(f, d, s, c, n, v);
    AddTight(AddConstraint(f, d, s, c), s, d, -c, n, v);
    InSize(f, v, n);
  }

  lemma InSize(z: Zone, v: seq<int>, n: nat)
    requires Sized(z, n)
    ensures In(z, v) ==> |v| == n
  {
  }

  lemma TranslateTight(z: Zone, d: nat, c: int, n: nat, v: seq<int>)
    requires Sized(z, n) && Tight(z) && 0 < d < n && |v| == n
    ensures In(Translate(z, d, c), v) <==> In(z, v[d := v[d] - c])
    ensures Tight(Translate(z, d, c)) && Sized(Translate(z, d, c), n)
  {
    TranslateExact(z, d, c, n, v);
    if !z.bottom {
      TranslateClosed(z, d, c, n);
    }
    SetSized(z, d, 0, c, n);
  }

  // ------------------------------------------------------------ one instruction

  /** The result is a tracked register or a constant, plus a constant. */
  predicate Affine(ix: Index, inst: Inst) {
    match inst
    case Assign(dst, Use(IntConst(_))) => true
    case Assign(dst, Use(Reg(src))) => src in ix.at && src != dst
    case Assign(dst, Bin(Add, Reg(a), IntConst(_))) => a in ix.at
    case Assign(dst, Bin(Sub, Reg(a), IntConst(_))) => a in ix.at
    case _ => false
  }

  /** Nothing is known of the result, or there is none. */
  predicate Arbitrary(inst: Inst) {
    match inst
    case Define(_) => true
    case Effect => true
    case Assign(_, Select) => true
    case Assign(_, Use(OpaqueConst(_))) => true
    case Assign(_, Bin(OtherBin, _, _)) => true
    case Assign(_, Cast(op, _, _)) => op != ZExt && op != SExt
    case _ => false
  }

  /** From every store with valuation `u` the instruction may lead to one with valuation `v`. */
  ghost predicate Leads(ix: Index, inst: Inst, u: seq<int>, v: seq<int>) {
    forall s: Store :: Vec(ix, s) == u ==> exists s': Store :: Steps(inst, s, s') && Vec(ix, s') == v
  }

  /** The valuation is that of a store the instruction leads to from a store of the zone. */
  ghost predicate Arises(ix: Index, inst: Inst, z: Zone, v: seq<int>) {
    exists s: Store, s': Store :: InZ(ix, z, s) && Steps(inst, s, s') && Vec(ix, s') == v
  }

  function StoreOf(ix: Index, v: seq<int>): Store
    requires IndexOk(ix) && |v| == |ix.regs| + 1
  {
    map r: nat | r in ix.at.Keys :: v[ix.at[r]]
  }

  lemma StoreHas(ix: Index, v: seq<int>)
    requires IndexOk(ix) && |v| == |ix.regs| + 1 && v[0] == 0
    ensures Vec(ix, StoreOf(ix, v)) == v
  {
    var s := StoreOf(ix, v);
    forall i: nat | i < |v| ensures Vec(ix, s)[i] == v[i] {
      VecNth(ix, s, i);
      if i > 0 {
        NodeOf(ix, i - 1);
      }
    }
  }

  /** Writing a register to node `di` of the valuation. */
  lemma WriteLeads(ix: Index, s: Store, dst: nat, x: int, v: seq<int>)
    requires IndexOk(ix) && |v| == |ix.regs| + 1
    requires if dst in ix.at then ix.at[dst] < |v| && v == Vec(ix, s)[ix.at[dst] := x] else v == Vec(ix, s)
    ensures Vec(ix, s[dst := x]) == v
  {
    VecUpdate(ix, s, s[dst := x], dst);
  }

  /** What a store's registers are, in terms of its valuation. */
  lemma AffineSteps(ix: Index, inst: Inst, s: Store, x: int)
    requires IndexOk(ix) && Affine(ix, inst)
    requires Evaluates(inst.value, s, x)
    ensures Steps(inst, s, s[inst.dst := x])
  {
  }

  lemma ArbitrarySteps(inst: Inst, s: Store, x: int)
    requires Arbitrary(inst) && DefinedReg(inst).Some?
    ensures Steps(inst, s, s[DefinedReg(inst).value := x])
  {
    if inst.Assign? && inst.value.Bin? {
      var a, b := SomeValue(inst.value.lhs, s), SomeValue(inst.value.rhs, s);
      assert Denotes(inst.value.lhs, s, a) && Denotes(inst.value.rhs, s, b) && Computes(inst.value.bop, a, b, x);
    }
  }

  /** The zone node and the constant whose sum an affine instruction computes. */
  function SourceOf(ix: Index, inst: Inst): (nat, int) {
    match inst
    case Assign(_, Use(IntConst(c))) => (0, c)
    case Assign(_, Use(Reg(src))) => (Node(ix, src), 0)
    case Assign(_, Bin(Add, Reg(a), IntConst(c))) => (Node(ix, a), c)
    case Assign(_, Bin(Sub, Reg(a), IntConst(c))) => (Node(ix, a), -c)
    case _ => (0, 0)
  }

  function Node(ix: Index, r: nat): nat {
    if r in ix.at then ix.at[r] else 0
  }

  lemma SourceValue(ix: Index, inst: Inst, s: Store, x: int)
    requires IndexOk(ix) && Affine(ix, inst)
    ensures var (a, c) := SourceOf(ix, inst);
            a < |Vec(ix, s)| && (Evaluates(inst.value, s, x) <==> x == Vec(ix, s)[a] + c)
  {
    VecNth(ix, s, 0);
    match inst.value
    case Use(op) =>
      if op.Reg? {
        VecAt(ix, s, op.r);
      }
    case Bin(bop, lhs, rhs) =>
      VecAt(ix, s, lhs.r);
      assert Denotes(lhs, s, Val(s, lhs.r)) && Denotes(rhs, s, rhs.v);
    case _ =>
  }

  /** The valuations of an affine instruction's result. */
  lemma AffineZone(ix: Index, inst: Inst, z: Zone, v: seq<int>)
    requires IndexOk(ix) && SizedFor(ix, z) && Tight(z) && Affine(ix, inst) && inst.dst in ix.at
    ensures var (a, c) := SourceOf(ix, inst); var d, n := ix.at[inst.dst], |ix.regs| + 1;
            && 0 < d < n && a < n && Tight(ApplyZ(ix, inst, z)) && SizedFor(ix, ApplyZ(ix, inst, z))
            && (In(ApplyZ(ix, inst, z), v) <==>
                  |v| == n && if a == d then In(z, v[d := v[d] - c]) else Projects(z, d, v) && v[d] == v[a] + c)
  {
    var (a, c) := SourceOf(ix, inst);
    var d, n := ix.at[inst.dst], |ix.regs| + 1;
    AtOk(ix, inst.dst);
    SourceNode(ix, inst);
    hide IndexOk, In, Tight, SetAffine, Forget, Translate, Projects;
    if a == d {
      assert ApplyZ(ix, inst, z) == Translate(z, d, c);
      InSize(ApplyZ(ix, inst, z), v, n);
      SetSized(z, d, 0, c, n);
      TranslateTight(z, d, c, n, if |v| == n then v else seq(n, _ => 0));
    } else {
      assert ApplyZ(ix, inst, z) == SetAffine(z, d, a, c);
      SetExact(z, d, a, c, n, v);
    }
  }

  lemma SourceNode(ix: Index, inst: Inst)
    requires IndexOk(ix) && Affine(ix, inst)
    ensures SourceOf(ix, inst).0 <= |ix.regs|
    ensures inst.value.Use? ==> inst.dst in ix.at ==> SourceOf(ix, inst).0 != ix.at[inst.dst]
    ensures inst.value.Bin? && inst.value.lhs.r in ix.at && inst.dst in ix.at ==>
              (ix.at[inst.value.lhs.r] == ix.at[inst.dst] <==> inst.value.lhs.r == inst.dst)
  {
    AtOk(ix, inst.dst);
    if inst.value.Use? && inst.value.op.Reg? {
      AtOk(ix, inst.value.op.r);
    } else if inst.value.Bin? {
      AtOk(ix, inst.value.lhs.r);
    }
  }

  lemma AffineLeads(ix: Index, inst: Inst, u: seq<int>, v: seq<int>)
    requires IndexOk(ix) && Affine(ix, inst) && |u| == |v| == |ix.regs| + 1
    requires var (a, c) := SourceOf(ix, inst);
             && a < |u|
             && if inst.dst in ix.at then 0 < ix.at[inst.dst] < |u| && v == u[ix.at[inst.dst] := u[a] + c] else v == u
    ensures Leads(ix, inst, u, v)
  {
    var (a, c) := SourceOf(ix, inst);
    hide IndexOk, Vec, SourceOf, Steps, Evaluates;
    forall s: Store | Vec(ix, s) == u ensures exists s': Store :: Steps(inst, s, s') && Vec(ix, s') == v {
      var x := u[a] + c;
      SourceValue(ix, inst, s, x);
      AffineSteps(ix, inst, s, x);
      WriteLeads(ix, s, inst.dst, x, v);
    }
  }

  lemma ArbitraryLeads(ix: Index, inst: Inst, u: seq<int>, v: seq<int>)
    requires IndexOk(ix) && Arbitrary(inst) && |u| == |v| == |ix.regs| + 1
    requires match DefinedReg(inst)
             case Some(dst) => if dst in ix.at then 0 < ix.at[dst] < |u| && v == u[ix.at[dst] := v[ix.at[dst]]]
                 else v == u
             case None => v == u
    ensures Leads(ix, inst, u, v)
  {
    hide IndexOk, Vec, Steps, Arbitrary;
    forall s: Store | Vec(ix, s) == u ensures exists s': Store :: Steps(inst, s, s') && Vec(ix, s') == v {
      match DefinedReg(inst) {
        case Some(dst) =>
          var x := if dst in ix.at then v[ix.at[dst]] else 0;
          ArbitrarySteps(inst, s, x);
          WriteLeads(ix, s, dst, x, v);
        case None =>
          EffectSteps(inst, s);
      }
    }
  }

  lemma EffectSteps(inst: Inst, s: Store)
    requires DefinedReg(inst).None?
    ensures Steps(inst, s, s)
  {
  }

  /** Every valuation after the instruction comes from one before it, whatever the store behind that is. */
  lemma InstLifts(ix: Index, inst: Inst, z: Zone, v: seq<int>) returns (u: seq<int>)
    requires IndexOk(ix) && SizedFor(ix, z) && Tight(z) && (Affine(ix, inst) || Arbitrary(inst))
    requires In(ApplyZ(ix, inst, z), v)
    ensures |u| == |v| == |ix.regs| + 1 && In(z, u) && Leads(ix, inst, u, v)
  {
    var n := |ix.regs| + 1;
    hide IndexOk, In, Tight, Leads, SetAffine, Forget, Translate;
    match DefinedReg(inst) {
      case None =>
        u := v;
        InSize(z, v, n);
        ArbitraryLeads(ix, inst, u, v);
      case Some(dst) =>
        AtOk(ix, dst);
        if dst !in ix.at {
          u := v;
          InSize(z, v, n);
          UntrackedLeads(ix, inst, v);
        } else if Affine(ix, inst) {
          u := AffineLifts(ix, inst, z, v);
        } else {
          ForgetProjects(z, ix.at[dst], n, v);
          assert ApplyZ(ix, inst, z) == Forget(z, ix.at[dst]);
          var x :| InWith(z, v, ix.at[dst], x);
          u := v[ix.at[dst] := x];
          ArbitraryLeads(ix, inst, u, v);
        }
    }
  }

  lemma UntrackedLeads(ix: Index, inst: Inst, v: seq<int>)
    requires IndexOk(ix) && (Affine(ix, inst) || Arbitrary(inst)) && |v| == |ix.regs| + 1
    requires DefinedReg(inst).Some? && DefinedReg(inst).value !in ix.at
    ensures Leads(ix, inst, v, v)
  {
    if Arbitrary(inst) {
      ArbitraryLeads(ix, inst, v, v);
    } else {
      SourceNode(ix, inst);
      AffineLeads(ix, inst, v, v);
    }
  }

  lemma AffineLifts(ix: Index, inst: Inst, z: Zone, v: seq<int>) returns (u: seq<int>)
    requires IndexOk(ix) && SizedFor(ix, z) && Tight(z) && Affine(ix, inst) && inst.dst in ix.at
    requires In(ApplyZ(ix, inst, z), v)
    ensures |u| == |v| == |ix.regs| + 1 && In(z, u) && Leads(ix, inst, u, v)
  {
    var (a, c) := SourceOf(ix, inst);
    var d := ix.at[inst.dst];
    AffineZone(ix, inst, z, v);
    hide IndexOk, In, Tight, Leads, ApplyZ, Affine, SourceOf;
    if a == d {
      u := v[d := v[d] - c];
    } else {
      var x :| InWith(z, v, d, x);
      u := v[d := x];
    }
    AffineLeads(ix, inst, u, v);
  }

  /**
   On a zone without slack an instruction whose result is a tracked register or
   constant plus a constant, or unknown, gives exactly the valuations of the
   stores it leads to.
   */
  lemma InstImage(ix: Index, inst: Inst, z: Zone, v: seq<int>)
    requires IndexOk(ix) && SizedFor(ix, z) && Tight(z) && (Affine(ix, inst) || Arbitrary(inst))
    ensures In(ApplyZ(ix, inst, z), v) <==> Arises(ix, inst, z, v)
  {
    if In(ApplyZ(ix, inst, z), v) {
      var u := InstLifts(ix, inst, z, v);
      InZero(z, u);
      StoreHas(ix, u);
      var s := StoreOf(ix, u);
      hide IndexOk, In, Tight, ApplyZ, Vec, Steps, StoreOf;
      var s': Store :| Steps(inst, s, s') && Vec(ix, s') == v;
      assert InZ(ix, z, s);
    } else {
      hide IndexOk, In, Tight, ApplyZ, Vec, Steps;
      forall s: Store, s': Store | InZ(ix, z, s) && Steps(inst, s, s') ensures Vec(ix, s') != v {
        ApplyZSound(ix, inst, z, s, s');
      }
    }
  }

  lemma InZero(z: Zone, v: seq<int>)
    requires In(z, v)
    ensures v != [] && v[0] == 0
  {
  }

  /** Any other instruction forgets its result, and nothing else. */
  lemma InstProjects(ix: Index, inst: Inst, z: Zone, dst: nat, v: seq<int>)
    requires IndexOk(ix) && SizedFor(ix, z) && Tight(z) && !Affine(ix, inst)
    requires DefinedReg(inst) == Some(dst) && dst in ix.at
    ensures In(ApplyZ(ix, inst, z), v) <==> |v| == |ix.regs| + 1 && Projects(z, ix.at[dst], v)
  {
    AtOk(ix, dst);
    var n, d := |ix.regs| + 1, ix.at[dst];
    hide IndexOk, In, Tight, Projects, Forget, Translate;
    ForgetProjects(z, d, n, v);
    if SelfCopy(inst) {
      SetExact(z, d, d, 0, n, v);
    }
    hide SetAffine;
  }

  predicate SelfCopy(inst: Inst) {
    inst.Assign? && inst.value == Use(Reg(inst.dst))
  }

  /** No slack comes in. */
  lemma InstTight(ix: Index, inst: Inst, z: Zone)
    requires IndexOk(ix) && SizedFor(ix, z) && Tight(z)
    ensures Tight(ApplyZ(ix, inst, z)) && SizedFor(ix, ApplyZ(ix, inst, z))
  {
    ApplyZSized(ix, inst, z);
    match DefinedReg(inst) {
      case Some(dst) =>
        if dst in ix.at {
          var v := seq(|ix.regs| + 1, _ => 0);
          AtOk(ix, dst);
          if Affine(ix, inst) {
            AffineZone(ix, inst, z, v);
          } else {
            hide IndexOk, In, Tight, Projects, Forget, Translate;
            ForgetProjects(z, ix.at[dst], |ix.regs| + 1, v);
            if SelfCopy(inst) {
              SetExact(z, ix.at[dst], ix.at[dst], 0, |ix.regs| + 1, v);
            }
          }
        }
      case None =>
    }
  }

  // ------------------------------------------------------------ a block

  /** Stores before and after each of the first `n` instructions. */
  ghost predicate Chain(insts: seq<Inst>, n: nat, ss: seq<Store>) {
    n <= |insts| && |ss| == n + 1 && forall i: nat, j: nat :: j == i + 1 <= n ==> Steps(insts[i], ss[i], ss[j])
  }

  ghost predicate ChainEnds(ix: Index, insts: seq<Inst>, n: nat, z: Zone, ss: seq<Store>, v: seq<int>) {
    Chain(insts, n, ss) && InZ(ix, z, ss[0]) && Vec(ix, ss[n]) == v
  }

  ghost predicate Imaged(ix: Index, insts: seq<Inst>, n: nat) {
    n <= |insts| && forall i: nat :: i < n ==> Affine(ix, insts[i]) || Arbitrary(insts[i])
  }

  lemma {:induction false} BlockTight(ix: Index, insts: seq<Inst>, n: nat, z: Zone)
    requires IndexOk(ix) && SizedFor(ix, z) && Tight(z) && n <= |insts|
    ensures Tight(ApplyAllZ(ix, insts, n, z)) && SizedFor(ix, ApplyAllZ(ix, insts, n, z))
  {
    if n > 0 {
      BlockTight(ix, insts, n - 1, z);
      hide IndexOk, Tight, ApplyZ;
      InstTight(ix, insts[n - 1], ApplyAllZ(ix, insts, n - 1, z));
    }
  }

  lemma ChainMore(insts: seq<Inst>, n: nat, ss: seq<Store>, s: Store)
    requires n < |insts| && Chain(insts, n, ss) && Steps(insts[n], ss[n], s)
    ensures Chain(insts, n + 1, ss + [s]) && (ss + [s])[0] == ss[0] && (ss + [s])[n + 1] == s
  {
    hide Steps;
    var t := ss + [s];
    forall i: nat, j: nat | j == i + 1 <= n + 1 ensures Steps(insts[i], t[i], t[j]) {
      if i < n {
        assert Steps(insts[i], ss[i], ss[j]);
      }
    }
  }

  lemma ChainLess(insts: seq<Inst>, n: nat, ss: seq<Store>)
    requires n > 0 && Chain(insts, n, ss)
    ensures Chain(insts, n - 1, ss[..n]) && Steps(insts[n - 1], ss[n - 1], ss[n])
  {
    hide Steps;
    var t, i, k := ss[..n], n - 1, n;
    forall i: nat, j: nat | j == i + 1 <= n - 1 ensures Steps(insts[i], t[i], t[j]) {
      assert Steps(insts[i], ss[i], ss[j]);
    }
    assert Steps(insts[i], ss[i], ss[k]);
  }

  lemma {:induction false} ChainSound(ix: Index, insts: seq<Inst>, n: nat, z: Zone, ss: seq<Store>)
    requires IndexOk(ix) && SizedFor(ix, z) && Chain(insts, n, ss) && InZ(ix, z, ss[0])
    ensures InZ(ix, ApplyAllZ(ix, insts, n, z), ss[n]) && SizedFor(ix, ApplyAllZ(ix, insts, n, z))
  {
    hide IndexOk, In, ApplyZ, Steps, Vec;
    if n > 0 {
      ChainLess(insts, n, ss);
      ChainSound(ix, insts, n - 1, z, ss[..n]);
      ApplyZSound(ix, insts[n - 1], ApplyAllZ(ix, insts, n - 1, z), ss[n - 1], ss[n]);
      ApplyZSized(ix, insts[n - 1], ApplyAllZ(ix, insts, n - 1, z));
    }
  }

  lemma {:induction false} ChainComplete(ix: Index, insts: seq<Inst>, n: nat, z: Zone, v: seq<int>)
    returns (ss: seq<Store>)
    requires IndexOk(ix) && SizedFor(ix, z) && Tight(z) && Imaged(ix, insts, n)
    requires In(ApplyAllZ(ix, insts, n, z), v)
    ensures ChainEnds(ix, insts, n, z, ss, v)
  {
    hide IndexOk, In, Tight, ApplyZ, Steps, Vec, Affine, Arbitrary, Leads, StoreOf;
    if n == 0 {
      InZero(z, v);
      InSizeFor(ix, z, v);
      StoreHas(ix, v);
      ss := [StoreOf(ix, v)];
    } else {
      var y := ApplyAllZ(ix, insts, n - 1, z);
      BlockTight(ix, insts, n - 1, z);
      var u := InstLifts(ix, insts[n - 1], y, v);
      var init := ChainComplete(ix, insts, n - 1, z, u);
      var s' := LeadsFrom(ix, insts[n - 1], u, v, init[n - 1]);
      ChainMore(insts, n - 1, init, s');
      ss := init + [s'];
    }
  }

  lemma InSizeFor(ix: Index, z: Zone, v: seq<int>)
    requires SizedFor(ix, z) && In(z, v)
    ensures |v| == |ix.regs| + 1
  {
  }

  lemma LeadsFrom(ix: Index, inst: Inst, u: seq<int>, v: seq<int>, s: Store) returns (s': Store)
    requires Leads(ix, inst, u, v) && Vec(ix, s) == u
    ensures Steps(inst, s, s') && Vec(ix, s') == v
  {
    hide Vec, Steps;
    s' :| Steps(inst, s, s') && Vec(ix, s') == v;
  }

  /**
   A block of such instructions takes a zone without slack to exactly the
   valuations its runs end in.
   */
  lemma BlockImage(ix: Index, insts: seq<Inst>, n: nat, z: Zone, v: seq<int>)
    requires IndexOk(ix) && SizedFor(ix, z) && Tight(z) && Imaged(ix, insts, n)
    ensures In(ApplyAllZ(ix, insts, n, z), v) <==> exists ss: seq<Store> :: ChainEnds(ix, insts, n, z, ss, v)
  {
    hide IndexOk, In, Tight, ApplyAllZ, Vec, Affine, Arbitrary, Steps;
    if In(ApplyAllZ(ix, insts, n, z), v) {
      var ss := ChainComplete(ix, insts, n, z, v);
    }
    forall ss: seq<Store> | ChainEnds(ix, insts, n, z, ss, v) ensures In(ApplyAllZ(ix, insts, n, z), v) {
      ChainSound(ix, insts, n, z, ss);
    }
  }

  // ------------------------------------------------------------ the bounds that come out

  /** A bound that all valuations of a non-empty zone without slack meet with equality is stored. */
  lemma BoundStored(z: Zone, n: nat, i: nat, j: nat, c: int)
    requires Sized(z, n) && !z.bottom && Closed(z.m) && i < n && j < n && i != j
    requires forall v :: In(z, v) ==> i < |v| && j < |v| && v[j] - v[i] == c
    ensures At(z.m, i, j) == Some(c)
  {
    var bound := At(z.m, i, j);
    var v := BoundIsTight(z, n, i, j, if bound.Some? then bound.value else c + 1);
    assert Obeys(bound, v[j] - v[i]);
  }

  /** After `dst := a + c` the zone holds the difference in both directions, and nothing is lost. */
  lemma StepStored(ix: Index, inst: Inst, z: Zone, a: nat, c: int)
    requires IndexOk(ix) && SizedFor(ix, z) && Tight(z) && !z.bottom && inst.Assign?
    requires inst.value == Bin(Add, Reg(a), IntConst(c)) && a in ix.at && inst.dst in ix.at && inst.dst != a
    ensures var r := ApplyZ(ix, inst, z);
            && !r.bottom && Square(r.m) && ix.at[a] < |r.m| && ix.at[inst.dst] < |r.m|
            && At(r.m, ix.at[a], ix.at[inst.dst]) == Some(c) && At(r.m, ix.at[inst.dst], ix.at[a]) == Some(-c)
  {
    var r, n, i, d := ApplyZ(ix, inst, z), |ix.regs| + 1, ix.at[a], ix.at[inst.dst];
    AtOk(ix, a);
    NodesApart(ix, a, inst.dst);
    InstTight(ix, inst, z);
    var u := Inhabitant(z, n);
    InSizeFor(ix, z, u);
    var v := u[d := u[i] + c];
    AffineZone(ix, inst, z, v);
    hide ApplyZ, IndexOk, In, BLe;
    assert v[d := u[d]] == u;
    assert InWith(z, v, d, u[d]);
    InInhabits(r, v);
    forall w | In(r, w) ensures i < |w| && d < |w| && w[d] - w[i] == c {
      AffineZone(ix, inst, z, w);
    }
    BoundsStored(r, n, i, d, c);
  }

  lemma Inhabitant(z: Zone, n: nat) returns (v: seq<int>)
    requires Sized(z, n) && !z.bottom && Tight(z)
    ensures In(z, v)
  {
    v := BoundIsTight(z, n, 0, 0, if At(z.m, 0, 0).Some? then At(z.m, 0, 0).value else 0);
  }

  lemma BoundsStored(z: Zone, n: nat, i: nat, j: nat, c: int)
    requires Sized(z, n) && !z.bottom && Closed(z.m) && i < n && j < n && i != j
    requires forall v :: In(z, v) ==> i < |v| && j < |v| && v[j] - v[i] == c
    ensures At(z.m, i, j) == Some(c) && At(z.m, j, i) == Some(-c)
  {
    BoundStored(z, n, i, j, c);
    BoundStored(z, n, j, i, -c);
  }

  lemma InInhabits(z: Zone, v: seq<int>)
    requires In(z, v)
    ensures !z.bottom
  {
  }
}
