/**
 Per-register interval environments (crates/absint/src/env.rs): the state the
 interval analysis propagates, its lattice operations, and the widening rank.
 */
module Env {
  import opened Intervals
  import opened Ir
  import Engine

  /** An absent register is unconstrained. */
  datatype State = Unreachable | Reachable(regs: map<nat, Interval>)

  const TopState: State := Reachable(map[])

  function Find(m: map<nat, Interval>, r: nat): Interval {
    if r in m then m[r] else Top
  }

  function Get(st: State, r: nat): Interval {
    if st.Unreachable? then Bottom else Find(st.regs, r)
  }

  /** Storing the top interval removes the entry. */
  function Put(st: State, r: nat, v: Interval): State {
    if st.Unreachable? then st
    else if v == Top then Reachable(st.regs - {r})
    else Reachable(st.regs[r := v])
  }

  /** Combine two maps register by register, keeping what is not top. */
  function Pointwise(a: map<nat, Interval>, b: map<nat, Interval>, op: (Interval, Interval) -> Interval)
    : map<nat, Interval>
  {
    map r | r in a.Keys + b.Keys && op(Find(a, r), Find(b, r)) != Top :: op(Find(a, r), Find(b, r))
  }

  /** The loop that fills the combined map visits the keys of both maps once, in any order. */
  method PointwiseLoop(a: map<nat, Interval>, b: map<nat, Interval>, op: (Interval, Interval) -> Interval)
    returns (out: map<nat, Interval>)
    ensures out == Pointwise(a, b, op)
  {
    out := map[];
    var left := a.Keys + b.Keys;
    while left != {}
      invariant left <= a.Keys + b.Keys
      invariant forall r: nat :: r in out <==>
                  r in a.Keys + b.Keys - left && op(Find(a, r), Find(b, r)) != Top
      invariant forall r: nat :: r in out ==> out[r] == op(Find(a, r), Find(b, r))
      decreases left
    {
      var r :| r in left;
      var v := op(Find(a, r), Find(b, r));
      if v != Top {
        out := out[r := v];
      }
      left := left - {r};
    }
  }

  function JoinS(a: State, b: State): State {
    if a.Unreachable? then b else if b.Unreachable? then a else Reachable(Pointwise(a.regs, b.regs, Join))
  }

  function MeetS(a: State, b: State): State {
    if a.Unreachable? || b.Unreachable? then State.Unreachable else Reachable(Pointwise(a.regs, b.regs, Meet))
  }

  function WidenS(a: State, b: State): State {
    if a.Unreachable? then b else if b.Unreachable? then a else Reachable(Pointwise(a.regs, b.regs, Widen))
  }

  predicate LeqS(a: State, b: State) {
    a.Unreachable? ||
    (b.Reachable? && forall r: nat :: r in a.regs.Keys + b.regs.Keys ==> Leq(Find(a.regs, r), Find(b.regs, r)))
  }

  // ------------------------------------------------------------- meaning

  /** The stores a state stands for. */
  ghost predicate Models(st: State, s: Store) {
    st.Reachable? && forall r: nat :: r in st.regs ==> Has(st.regs[r], Val(s, r))
  }

  ghost predicate StateOk(st: State) {
    st.Reachable? ==> forall r: nat :: r in st.regs ==> IntervalOk(st.regs[r])
  }

  lemma ModelsGet(st: State, s: Store, r: nat)
    requires Models(st, s)
    ensures Has(Get(st, r), Val(s, r))
  {
  }

  lemma PutModels(st: State, s: Store, r: nat, iv: Interval)
    requires Models(st, s) && Has(iv, Val(s, r))
    ensures Models(Put(st, r, iv), s)
  {
  }

  /** Assigning in the store and in the state together. */
  lemma AssignModels(st: State, s: Store, s': Store, r: nat, iv: Interval)
    requires Models(st, s) && Has(iv, Val(s', r))
    requires forall q: nat :: q != r ==> Val(s', q) == Val(s, q)
    ensures Models(Put(st, r, iv), s')
  {
  }

  lemma PutOk(st: State, r: nat, iv: Interval)
    requires StateOk(st) && IntervalOk(iv)
    ensures StateOk(Put(st, r, iv))
  {
  }

  lemma GetOk(st: State, r: nat)
    requires StateOk(st)
    ensures IntervalOk(Get(st, r))
  {
  }

  lemma LeqModels(a: State, b: State, s: Store)
    requires LeqS(a, b) && Models(a, s)
    ensures Models(b, s)
  {
    forall r: nat | r in b.regs ensures Has(b.regs[r], Val(s, r)) {
      assert Leq(Find(a.regs, r), Find(b.regs, r));
    }
  }

  /** `LeqS` compares every register, stored or not. */
  lemma LeqEverywhere(a: State, b: State)
    requires a.Reachable? && b.Reachable?
    ensures LeqS(a, b) <==> forall r: nat :: Leq(Find(a.regs, r), Find(b.regs, r))
  {
    if LeqS(a, b) {
      forall r: nat ensures Leq(Find(a.regs, r), Find(b.regs, r)) {
        if r !in a.regs.Keys + b.regs.Keys {
          assert Find(a.regs, r) == Top == Find(b.regs, r);
        }
      }
    }
  }

  lemma FindPointwise(a: map<nat, Interval>, b: map<nat, Interval>, op: (Interval, Interval) -> Interval, r: nat)
    requires op(Top, Top) == Top
    ensures Find(Pointwise(a, b, op), r) == op(Find(a, r), Find(b, r))
  {
  }

  /** Meet of states is exactly intersection of what they stand for. */
  lemma MeetSExact(a: State, b: State, s: Store)
    ensures Models(MeetS(a, b), s) <==> Models(a, s) && Models(b, s)
  {
    if a.Reachable? && b.Reachable? {
      if Models(a, s) && Models(b, s) {
        forall r: nat | r in MeetS(a, b).regs ensures Has(MeetS(a, b).regs[r], Val(s, r)) {
          MeetExact(Find(a.regs, r), Find(b.regs, r), Val(s, r));
        }
      }
      if Models(MeetS(a, b), s) {
        forall r: nat | r in a.regs.Keys + b.regs.Keys
          ensures Has(Find(a.regs, r), Val(s, r)) && Has(Find(b.regs, r), Val(s, r))
        {
          FindPointwise(a.regs, b.regs, Meet, r);
          MeetExact(Find(a.regs, r), Find(b.regs, r), Val(s, r));
        }
      }
    }
  }

  // ------------------------------------------------------- lattice laws

  function Coarse(st: State): nat {
    if st.Unreachable? then 1 else 0
  }

  /** Sum of the stored intervals' remaining widenings, one more for each entry. */
  ghost function Weight(m: map<nat, Interval>, keys: set<nat>): nat
    requires keys <= m.Keys
  {
    if keys == {} then 0
    else
      var r :| r in keys;
      Rank(m[r]) + 1 + Weight(m, keys - {r})
  }

  ghost function Fine(st: State): nat {
    if st.Unreachable? then 0 else Weight(st.regs, st.regs.Keys)
  }

  lemma {:induction false} WeightTake(m: map<nat, Interval>, keys: set<nat>, r: nat)
    requires keys <= m.Keys && r in keys
    ensures Weight(m, keys) == Rank(m[r]) + 1 + Weight(m, keys - {r})
    decreases keys
  {
    var q :| q in keys && Weight(m, keys) == Rank(m[q]) + 1 + Weight(m, keys - {q});
    if q != r {
      WeightTake(m, keys - {q}, r);
      WeightTake(m, keys - {r}, q);
      assert keys - {q} - {r} == keys - {r} - {q};
    }
  }

  /** A map with fewer keys and no higher ranks weighs no more, and less if it differs. */
  lemma {:induction false} WeightFalls(m: map<nat, Interval>, w: map<nat, Interval>, keys: set<nat>)
    requires keys <= m.Keys
    requires forall r: nat :: r in keys * w.Keys ==> w[r] == m[r] || Rank(w[r]) < Rank(m[r])
    ensures Weight(w, keys * w.Keys) <= Weight(m, keys)
    ensures (exists r: nat :: r in keys && (r !in w || w[r] != m[r])) ==> Weight(w, keys * w.Keys) < Weight(m, keys)
    decreases keys
  {
    if keys == {} {
      assert keys * w.Keys == {};
    } else {
      var r :| r in keys;
      WeightFalls(m, w, keys - {r});
      WeightTake(m, keys, r);
      if r in w {
        WeightTake(w, keys * w.Keys, r);
        assert keys * w.Keys - {r} == (keys - {r}) * w.Keys;
      } else {
        assert keys * w.Keys == (keys - {r}) * w.Keys;
      }
    }
  }

  /** A widening that changes the state lowers its rank: reachability first, then the weight. */
  lemma WidenRank(a: State, b: State)
    requires WidenS(a, b) != a
    ensures Coarse(WidenS(a, b)) < Coarse(a) || (Coarse(WidenS(a, b)) == Coarse(a) && Fine(WidenS(a, b)) < Fine(a))
  {
    if a.Reachable? && b.Reachable? {
      var m, w := a.regs, WidenS(a, b).regs;
      forall r: nat | r in w ensures r in m && (w[r] == m[r] || Rank(w[r]) < Rank(m[r])) {
        WidenLaws(Find(m, r), Find(b.regs, r));
      }
      WeightFalls(m, w, m.Keys);
      assert m.Keys * w.Keys == w.Keys;
      assert exists r: nat :: r in m.Keys && (r !in w || w[r] != m[r]) by {
        assert w != m;
      }
    }
  }

  lemma JoinAbove(a: State, b: State)
    ensures LeqS(a, JoinS(a, b)) && LeqS(b, JoinS(a, b))
  {
    if a.Reachable? && b.Reachable? {
      forall r: nat
        ensures Leq(Find(a.regs, r), Find(JoinS(a, b).regs, r)) && Leq(Find(b.regs, r), Find(JoinS(a, b).regs, r))
      {
        FindPointwise(a.regs, b.regs, Join, r);
        JoinLeast(Find(a.regs, r), Find(b.regs, r), Top);
      }
    } else if a.Reachable? {
      LeqReflexive(a);
    } else {
      LeqReflexive(b);
    }
  }

  lemma LeqReflexive(a: State)
    ensures LeqS(a, a)
  {
  }

  lemma WidenAbove(a: State, b: State)
    ensures LeqS(a, WidenS(a, b)) && LeqS(b, WidenS(a, b))
  {
    if a.Reachable? && b.Reachable? {
      forall r: nat
        ensures Leq(Find(a.regs, r), Find(WidenS(a, b).regs, r)) && Leq(Find(b.regs, r), Find(WidenS(a, b).regs, r))
      {
        FindPointwise(a.regs, b.regs, Widen, r);
        WidenLaws(Find(a.regs, r), Find(b.regs, r));
      }
    } else if a.Reachable? {
      LeqReflexive(a);
    } else {
      LeqReflexive(b);
    }
  }

  lemma LeqTrans(a: State, b: State, c: State)
    requires LeqS(a, b) && LeqS(b, c)
    ensures LeqS(a, c)
  {
    if a.Reachable? {
      LeqEverywhere(a, b);
      LeqEverywhere(b, c);
      forall r: nat ensures Leq(Find(a.regs, r), Find(c.regs, r)) {
        LeqTransitive(Find(a.regs, r), Find(b.regs, r), Find(c.regs, r));
      }
    }
  }

  lemma CombineOk(a: State, b: State)
    requires StateOk(a) && StateOk(b)
    ensures StateOk(JoinS(a, b)) && StateOk(WidenS(a, b))
  {
    if a.Reachable? && b.Reachable? {
      forall r: nat
        ensures IntervalOk(Join(Find(a.regs, r), Find(b.regs, r)))
        ensures IntervalOk(Widen(Find(a.regs, r), Find(b.regs, r)))
      {
        ArithmeticOk(Find(a.regs, r), Find(b.regs, r));
      }
    }
  }

  const StateLattice: Engine.Lattice<State> := Engine.Lattice(State.Unreachable, JoinS, WidenS)

  ghost const StateLaws: Engine.Laws<State> := Engine.Laws(st => StateOk(st), LeqS, Coarse, st => Fine(st))

  /** The environment lattice meets everything the solver asks for. */
  lemma StateLawful()
    ensures Engine.Lawful(StateLattice, StateLaws)
  {
    forall a, b | StateOk(a) && StateOk(b) ensures StateOk(JoinS(a, b)) && StateOk(WidenS(a, b)) {
      CombineOk(a, b);
    }
    forall a ensures LeqS(a, a) {
      LeqReflexive(a);
    }
    forall a, b, c | LeqS(a, b) && LeqS(b, c) ensures LeqS(a, c) {
      LeqTrans(a, b, c);
    }
    forall a, b ensures LeqS(a, JoinS(a, b)) && LeqS(b, JoinS(a, b)) && LeqS(b, WidenS(a, b)) {
      JoinAbove(a, b);
      WidenAbove(a, b);
    }
    forall a, b | WidenS(a, b) != a ensures Engine.RankFalls(StateLaws, a, WidenS(a, b)) {
      WidenRank(a, b);
    }
    hide JoinS, WidenS, LeqS, StateOk, Coarse, Fine;
  }
}
