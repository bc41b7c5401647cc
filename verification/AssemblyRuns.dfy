/**
 The blocks mean what the instruction list means: both machines emit the same instructions for every sequence of
 branch outcomes (crates/asm/src/blocks.rs), unless code behind a gap was appended to a block that is entered.
 */
module AssemblyRuns {
  import opened Wrappers
  import opened Ir
  import opened Assembly

  /** A running machine: where it is, how many branch outcomes it has used, what it has emitted. */
  datatype Conf = Conf(pc: Option<nat>, used: nat, trace: seq<Inst>)

  /** The outcome of the `n`-th conditional branch. */
  type Outcomes = nat -> bool

  // ------------------------------------------------------------ the two machines

  ghost function Fetch(d: seq<Insn>, o: nat): Option<nat> {
    if Decoded(d, o) then
      var i: nat :| i < |d| && d[i].offset == o;
      Some(i)
    else None
  }

  /** Where control goes after `x`, and how many outcomes that used. */
  function After(x: Insn, oracle: Outcomes, used: nat): (Option<nat>, nat) {
    match x.ctrl
    case Ret => (None, used)
    case Fall => (Some(x.next), used)
    case Jmp(t) => (Some(t), used)
    case Jcc(t, _) => (Some(if oracle(used) then t else x.next), used + 1)
  }

  /** One instruction of the list; running off the decoded code stops. */
  ghost function FlatStep(d: seq<Insn>, oracle: Outcomes, c: Conf): Conf {
    if c.pc.None? then c
    else
      match Fetch(d, c.pc.value)
      case None => c.(pc := None)
      case Some(i) =>
        if i < |d| then
          var (pc, used) := After(d[i], oracle, c.used);
          Conf(pc, used, c.trace + d[i].insts)
        else c
  }

  ghost function FlatRun(d: seq<Insn>, oracle: Outcomes, c: Conf, k: nat): Conf {
    if k == 0 then c else FlatStep(d, oracle, FlatRun(d, oracle, c, k - 1))
  }

  function AfterBlock(t: Terminator, oracle: Outcomes, used: nat): (Option<nat>, nat) {
    match t
    case Return => (None, used)
    case Unreachable => (None, used)
    case Br(b, _) => (Some(b), used)
    case CondBr(_, b, _, e, _) => (Some(if oracle(used) then b else e), used + 1)
    case Switch(_) => (None, used)
  }

  /** One whole block. */
  function BlockStep(blocks: seq<Block>, oracle: Outcomes, c: Conf): Conf {
    if c.pc.None? || c.pc.value >= |blocks| then c.(pc := None)
    else
      var b := blocks[c.pc.value];
      var (pc, used) := AfterBlock(b.term, oracle, c.used);
      Conf(pc, used, c.trace + b.insts)
  }

  function BlockRun(blocks: seq<Block>, oracle: Outcomes, c: Conf, m: nat): Conf {
    if m == 0 then c else BlockStep(blocks, oracle, BlockRun(blocks, oracle, c, m - 1))
  }

  // ------------------------------------------------------------ gaps

  /** Behind every gap a block starts. */
  ghost predicate NoOrphans(d: seq<Insn>) {
    forall i: nat, j: nat :: j == i + 1 < |d| ==> d[i].next == d[j].offset || IsLeader(d, d[j].offset)
  }

  /** Inside a block each instruction falls through to the next. */
  ghost predicate StraightLine(d: seq<Insn>, starts: seq<nat>) {
    forall i: nat, j: nat :: j == i + 1 < |d| && j !in starts ==> d[i].ctrl == Fall && d[i].next == d[j].offset
  }

  /** The blocks are runs of straight-line code exactly when every gap is followed by a leader. */
  lemma StraightLineExactly(d: seq<Insn>, leaders: seq<nat>, starts: seq<nat>)
    requires Sorted(d) && IsStarts(d, leaders, starts)
    ensures StraightLine(d, starts) <==> NoOrphans(d)
  {
    if NoOrphans(d) {
      forall i: nat, j: nat | j == i + 1 < |d| && j !in starts ensures d[i].ctrl == Fall && d[i].next == d[j].offset {
        assert !IsLeader(d, d[j].offset);
        assert !LeadsTo(d[i], d[j].offset);
      }
    }
    if StraightLine(d, starts) {
      forall i: nat, j: nat | j == i + 1 < |d| ensures d[i].next == d[j].offset || IsLeader(d, d[j].offset) {
        assert j in starts <==> IsLeader(d, d[j].offset);
      }
    }
  }

  /** The instruction before `i` falls through to `i`. */
  predicate FallsInto(d: seq<Insn>, i: nat) {
    0 < i < |d| && d[i - 1].ctrl == Fall && d[i - 1].next == d[i].offset
  }

  /** In block `k`, instructions before `n` fall through to the next. */
  ghost predicate StraightTo(d: seq<Insn>, starts: seq<nat>, k: nat, n: nat)
    requires k < |starts| && n <= |d|
  {
    forall i: nat :: starts[k] < i < n ==> FallsInto(d, i)
  }

  ghost predicate StraightBlock(d: seq<Insn>, starts: seq<nat>, k: nat) {
    k < |starts| && EndOf(d, starts, k) <= |d| && StraightTo(d, starts, k, EndOf(d, starts, k))
  }

  /** The blocks entered in the first `m` steps are straight-line code. */
  ghost predicate EntersStraight(d: seq<Insn>, starts: seq<nat>, blocks: seq<Block>, oracle: Outcomes, b: Conf,
                                 m: nat) {
    forall j: nat :: j < m && BlockRun(blocks, oracle, b, j).pc.Some? ==>
      StraightBlock(d, starts, BlockRun(blocks, oracle, b, j).pc.value)
  }

  // ------------------------------------------------------------ simulation

  /** The machines agree: same trace, same outcomes used, and the list stands at the block's leader. */
  ghost predicate Agree(leaders: seq<nat>, f: Conf, b: Conf) {
    && f.trace == b.trace && f.used == b.used && (f.pc.None? <==> b.pc.None?)
    && (b.pc.Some? ==> b.pc.value < |leaders| && f.pc.value == leaders[b.pc.value])
  }

  lemma FetchIs(d: seq<Insn>, i: nat)
    requires Sorted(d) && i < |d|
    ensures Fetch(d, d[i].offset) == Some(i)
  {
    assert Decoded(d, d[i].offset);
    SortedOffsets(d);
  }

  lemma {:induction false} RunJoin(d: seq<Insn>, oracle: Outcomes, c: Conf, j: nat, k: nat)
    ensures FlatRun(d, oracle, FlatRun(d, oracle, c, j), k) == FlatRun(d, oracle, c, j + k)
  {
    if k > 0 {
      RunJoin(d, oracle, c, j, k - 1);
    }
  }

  /** Inside a block the list machine walks from one instruction to the next. */
  lemma {:induction false} Walk(d: seq<Insn>, leaders: seq<nat>, starts: seq<nat>, oracle: Outcomes, c: Conf, k: nat,
                                i: nat)
    requires Sorted(d) && IsStarts(d, leaders, starts) && k < |starts|
    requires starts[k] <= i < |d| && StraightTo(d, starts, k, i + 1) && c.pc == Some(leaders[k])
    ensures FlatRun(d, oracle, c, i - starts[k]) == Conf(Some(d[i].offset), c.used, c.trace + Concat(d[starts[k]..i]))
    decreases i
  {
    hide *;
    if i == starts[k] {
      WalkStart(d, oracle, c, i, leaders, starts, k);
    } else {
      StraightLess(d, starts, k, i);
      Walk(d, leaders, starts, oracle, c, k, i - 1);
      FetchIs(d, i - 1);
      WalkStep(d, oracle, c, starts[k], i);
    }
  }

  lemma WalkStart(d: seq<Insn>, oracle: Outcomes, c: Conf, i: nat, leaders: seq<nat>, starts: seq<nat>, k: nat)
    requires IsStarts(d, leaders, starts) && k < |starts| && i == starts[k] && i < |d| && c.pc == Some(leaders[k])
    ensures FlatRun(d, oracle, c, 0) == Conf(Some(d[i].offset), c.used, c.trace + Concat(d[i..i]))
  {
    hide Ascending, IsLeader;
    assert d[i..i] == [];
    assert c.trace + [] == c.trace;
  }

  lemma WalkStep(d: seq<Insn>, oracle: Outcomes, c: Conf, s: nat, i: nat)
    requires s < i < |d| && Fetch(d, d[i - 1].offset) == Some(i - 1)
    requires d[i - 1].ctrl == Fall && d[i - 1].next == d[i].offset
    requires FlatRun(d, oracle, c, i - 1 - s) == Conf(Some(d[i - 1].offset), c.used, c.trace + Concat(d[s..i - 1]))
    ensures FlatRun(d, oracle, c, i - s) == Conf(Some(d[i].offset), c.used, c.trace + Concat(d[s..i]))
  {
    hide Fetch, Concat;
    ConcatTo(d, s, i, c.trace);
    assert FlatRun(d, oracle, c, i - s) == FlatStep(d, oracle, FlatRun(d, oracle, c, i - 1 - s));
  }

  lemma ConcatTo(d: seq<Insn>, s: nat, i: nat, trace: seq<Inst>)
    requires s < i <= |d|
    ensures trace + Concat(d[s..i - 1]) + d[i - 1].insts == trace + Concat(d[s..i])
  {
    assert d[s..i] == d[s..i - 1] + [d[i - 1]];
    ConcatSnoc(d[s..i - 1], d[i - 1]);
    assert trace + Concat(d[s..i - 1]) + d[i - 1].insts == trace + (Concat(d[s..i - 1]) + d[i - 1].insts);
  }

  lemma StraightLess(d: seq<Insn>, starts: seq<nat>, k: nat, i: nat)
    requires k < |starts| && starts[k] < i < |d| && StraightTo(d, starts, k, i + 1)
    ensures StraightTo(d, starts, k, i) && d[i - 1].ctrl == Fall && d[i - 1].next == d[i].offset
  {
    assert FallsInto(d, i);
  }

  lemma BetweenStarts(d: seq<Insn>, leaders: seq<nat>, starts: seq<nat>, k: nat, i: nat)
    requires IsStarts(d, leaders, starts) && k < |starts| && starts[k] < i < EndOf(d, starts, k)
    ensures i !in starts
  {
    forall x: nat | x < |starts| ensures starts[x] != i {
      if x < k {
        assert starts[x] < starts[k];
      } else if x > k + 1 {
        assert starts[k + 1] < starts[x];
      }
    }
  }

  /** Running one block is running its instructions. */
  lemma BlockSimulates(d: seq<Insn>, leaders: seq<nat>, starts: seq<nat>, blocks: seq<Block>, oracle: Outcomes, f: Conf,
                       b: Conf)
    returns (k: nat)
    requires Sorted(d) && IsAssembly(d, leaders, starts, blocks)
    requires Agree(leaders, f, b) && b.pc.Some? && StraightBlock(d, starts, b.pc.value)
    ensures k > 0 && Agree(leaders, FlatRun(d, oracle, f, k), BlockStep(blocks, oracle, b))
  {
    hide *;
    var x := b.pc.value;
    AgreeAt(leaders, f, b);
    BlockAt(d, leaders, starts, blocks, x);
    var last := EndOf(d, starts, x) - 1;
    k := last - starts[x] + 1;
    StraightIs(d, starts, x);
    Walk(d, leaders, starts, oracle, f, x, last);
    FetchIs(d, last);
    ConcatTo(d, starts[x], last + 1, f.trace);
    TermAgrees(d[last], leaders, blocks[x].term, oracle, f.used);
    BlockEnds(d, leaders, blocks, oracle, f, b, last, last - starts[x]);
  }

  lemma StraightIs(d: seq<Insn>, starts: seq<nat>, k: nat)
    requires StraightBlock(d, starts, k)
    ensures k < |starts| && EndOf(d, starts, k) <= |d| && StraightTo(d, starts, k, EndOf(d, starts, k))
  {
  }

  lemma AgreeAt(leaders: seq<nat>, f: Conf, b: Conf)
    requires Agree(leaders, f, b) && b.pc.Some?
    ensures b.pc.value < |leaders| && f.pc == Some(leaders[b.pc.value]) && f.trace == b.trace && f.used == b.used
  {
  }

  lemma BlockAt(d: seq<Insn>, leaders: seq<nat>, starts: seq<nat>, blocks: seq<Block>, x: nat)
    requires IsAssembly(d, leaders, starts, blocks) && x < |leaders|
    ensures IsStarts(d, leaders, starts) && |starts| == |blocks| == |leaders|
    ensures starts[x] < EndOf(d, starts, x) <= |d|
    ensures blocks[x].insts == Concat(d[starts[x]..EndOf(d, starts, x)])
    ensures Terminates(d[EndOf(d, starts, x) - 1], leaders, blocks[x].term)
  {
    StartsSize(d, leaders, starts);
    hide IsStarts, Terminates, EndOf, Concat;
    assert IsBlock(d, leaders, starts, x, blocks[x]);
  }

  /** The last instruction of the block and the block's terminator go the same way. */
  lemma BlockEnds(d: seq<Insn>, leaders: seq<nat>, blocks: seq<Block>, oracle: Outcomes, f: Conf, b: Conf, last: nat,
                  steps: nat)
    requires last < |d| && b.pc.Some? && b.pc.value < |blocks| && Fetch(d, d[last].offset) == Some(last)
    requires f.trace == b.trace && f.used == b.used
    requires FlatRun(d, oracle, f, steps).pc == Some(d[last].offset) && FlatRun(d, oracle, f, steps).used == f.used
    requires FlatRun(d, oracle, f, steps).trace + d[last].insts == f.trace + blocks[b.pc.value].insts
    requires var (pc, u) := After(d[last], oracle, f.used);
             var (pb, v) := AfterBlock(blocks[b.pc.value].term, oracle, f.used);
             u == v && (pc.None? <==> pb.None?) && (pb.Some? ==> pb.value < |leaders| && pc.value == leaders[pb.value])
    ensures Agree(leaders, FlatRun(d, oracle, f, steps + 1), BlockStep(blocks, oracle, b))
  {
    hide Fetch, After, AfterBlock;
    assert FlatRun(d, oracle, f, steps + 1) == FlatStep(d, oracle, FlatRun(d, oracle, f, steps));
  }

  lemma TermAgrees(x: Insn, leaders: seq<nat>, t: Terminator, oracle: Outcomes, used: nat)
    requires Terminates(x, leaders, t)
    ensures var (pc, u) := After(x, oracle, used); var (pb, v) := AfterBlock(t, oracle, used);
            u == v && (pc.None? <==> pb.None?) && (pb.Some? ==> pb.value < |leaders| && pc.value == leaders[pb.value])
  {
  }

  lemma {:induction false} RunSimulates(d: seq<Insn>, leaders: seq<nat>, starts: seq<nat>, blocks: seq<Block>,
                                        oracle: Outcomes, f: Conf, b: Conf, m: nat) returns (k: nat)
    requires Sorted(d) && IsAssembly(d, leaders, starts, blocks) && EntersStraight(d, starts, blocks, oracle, b, m)
    requires Agree(leaders, f, b)
    ensures Agree(leaders, FlatRun(d, oracle, f, k), BlockRun(blocks, oracle, b, m))
    ensures k >= m || BlockRun(blocks, oracle, b, m).pc.None?
  {
    hide Sorted, IsAssembly, StraightBlock, FlatStep, BlockStep, Agree;
    if m == 0 {
      k := 0;
    } else {
      var k0 := RunSimulates(d, leaders, starts, blocks, oracle, f, b, m - 1);
      var f1, b1 := FlatRun(d, oracle, f, k0), BlockRun(blocks, oracle, b, m - 1);
      AgreeStops(leaders, f1, b1);
      if b1.pc.None? {
        k := k0;
        StopsStepping(blocks, oracle, b1);
      } else {
        var k1 := BlockSimulates(d, leaders, starts, blocks, oracle, f1, b1);
        RunJoin(d, oracle, f, k0, k1);
        k := k0 + k1;
      }
    }
  }

  lemma AgreeStops(leaders: seq<nat>, f: Conf, b: Conf)
    requires Agree(leaders, f, b)
    ensures f.pc.None? <==> b.pc.None?
  {
  }

  lemma StopsStepping(blocks: seq<Block>, oracle: Outcomes, b: Conf)
    requires b.pc.None?
    ensures BlockStep(blocks, oracle, b) == b
  {
  }

  /** Where both machines start. */
  function FlatStart(d: seq<Insn>): Conf
    requires d != []
  {
    Conf(Some(d[0].offset), 0, [])
  }

  const BlockStart: Conf := Conf(Some(0), 0, [])

  /** After `m` blocks the list machine, some steps on, has emitted the same and stands at the same place. */
  ghost predicate SameAfter(d: seq<Insn>, blocks: seq<Block>, oracle: Outcomes, m: nat, k: nat)
    requires d != []
  {
    var f, b := FlatRun(d, oracle, FlatStart(d), k), BlockRun(blocks, oracle, BlockStart, m);
    f.trace == b.trace && f.used == b.used && (f.pc.None? <==> b.pc.None?) && (k >= m || b.pc.None?)
  }

  /** As long as only straight-line blocks are entered, the traces coincide. */
  lemma EnteredAgree(d: seq<Insn>, leaders: seq<nat>, starts: seq<nat>, blocks: seq<Block>, oracle: Outcomes, m: nat)
    returns (k: nat)
    requires Sorted(d) && d != [] && IsAssembly(d, leaders, starts, blocks)
    requires EntersStraight(d, starts, blocks, oracle, BlockStart, m)
    ensures SameAfter(d, blocks, oracle, m, k)
  {
    StartsAgree(d, leaders, starts, blocks);
    hide Sorted, IsAssembly, EntersStraight, FlatRun, BlockRun;
    k := RunSimulates(d, leaders, starts, blocks, oracle, FlatStart(d), BlockStart, m);
  }

  lemma StartsAgree(d: seq<Insn>, leaders: seq<nat>, starts: seq<nat>, blocks: seq<Block>)
    requires d != [] && IsAssembly(d, leaders, starts, blocks)
    ensures Agree(leaders, FlatStart(d), BlockStart)
  {
    hide IsBlock, EndOf;
  }

  lemma {:induction false} TraceGrows(d: seq<Insn>, oracle: Outcomes, c: Conf, j: nat, k: nat)
    requires j <= k
    ensures FlatRun(d, oracle, c, j).trace <= FlatRun(d, oracle, c, k).trace
    ensures FlatRun(d, oracle, c, j).pc.None? ==> FlatRun(d, oracle, c, k) == FlatRun(d, oracle, c, j)
  {
    if j < k {
      TraceGrows(d, oracle, c, j, k - 1);
    }
  }

  // ------------------------------------------------------------ when the traces part

  /** Every instruction can be told from every other by what it emits. */
  ghost predicate Labelled(d: seq<Insn>) {
    && (forall i: nat :: i < |d| ==> |d[i].insts| == 1)
    && (forall i: nat, j: nat :: i < j < |d| ==> d[i].insts != d[j].insts)
  }

  lemma {:induction false} BlockTraceGrows(blocks: seq<Block>, oracle: Outcomes, c: Conf, j: nat, k: nat)
    requires j <= k
    ensures BlockRun(blocks, oracle, c, j).trace <= BlockRun(blocks, oracle, c, k).trace
  {
    if j < k {
      BlockTraceGrows(blocks, oracle, c, j, k - 1);
    }
  }

  /** Inside a block, what does not fall through to the next instruction never goes to it. */
  lemma OrphanUnreached(d: seq<Insn>, leaders: seq<nat>, starts: seq<nat>, k: nat, i: nat, oracle: Outcomes, used: nat)
    requires Sorted(d) && FallsDecoded(d) && IsStarts(d, leaders, starts) && k < |starts|
    requires starts[k] < i < EndOf(d, starts, k) <= |d|
    requires !(d[i - 1].ctrl == Fall && d[i - 1].next == d[i].offset)
    ensures After(d[i - 1], oracle, used).0 != Some(d[i].offset)
  {
    BetweenStarts(d, leaders, starts, k, i);
    NotLeader(d, leaders, starts, i);
    hide IsStarts, EndOf;
    assert Decoded(d, d[i].offset) && !LeadsTo(d[i - 1], d[i].offset);
    if d[i - 1].ctrl == Fall {
      assert Decoded(d, d[i - 1].next);
      NextDecoded(d, i);
    } else if d[i - 1].ctrl.Jcc? {
      NextDecoded(d, i);
    }
  }

  lemma NotLeader(d: seq<Insn>, leaders: seq<nat>, starts: seq<nat>, i: nat)
    requires IsStarts(d, leaders, starts) && i < |d| && i !in starts
    ensures !IsLeader(d, d[i].offset)
  {
  }

  lemma NextDecoded(d: seq<Insn>, i: nat)
    requires Sorted(d) && 0 < i < |d| && Decoded(d, d[i - 1].next)
    ensures d[i - 1].next == d[i].offset
  {
    var j: nat :| j < |d| && d[j].offset == d[i - 1].next;
    Ordered(d, j, i - 1);
    Ordered(d, i, j);
  }

  lemma Ordered(d: seq<Insn>, i: nat, j: nat)
    requires Sorted(d) && i < |d| && j < |d|
    ensures i < j ==> d[i].offset < d[i].next <= d[j].offset
    ensures d[i].offset < d[i].next && d[j].offset < d[j].next
  {
  }

  /** The list machine stands somewhere else than at instruction `i`: it will not emit `i` next. */
  lemma NotNext(d: seq<Insn>, oracle: Outcomes, c: Conf, i: nat, k: nat, trace: seq<Inst>)
    requires Sorted(d) && Labelled(d) && i < |d| && c.pc != Some(d[i].offset) && c.trace + d[i].insts <= trace
    ensures FlatRun(d, oracle, c, k).trace != trace
  {
    var one := FlatRun(d, oracle, c, 1);
    assert one == FlatStep(d, oracle, FlatRun(d, oracle, c, 0));
    assert trace[|c.trace|] == d[i].insts[0] && trace[..|c.trace|] == c.trace;
    if k > 0 {
      TraceGrows(d, oracle, c, 1, k);
      StepElsewhere(d, oracle, c, i);
      hide FlatRun, FlatStep, Labelled;
      var t := FlatRun(d, oracle, c, k).trace;
      if |one.trace| > |c.trace| {
        assert t[|c.trace|] == one.trace[|c.trace|];
      }
    }
  }

  lemma StepElsewhere(d: seq<Insn>, oracle: Outcomes, c: Conf, i: nat)
    requires Sorted(d) && Labelled(d) && i < |d| && c.pc != Some(d[i].offset)
    ensures var one := FlatStep(d, oracle, c);
            if |one.trace| > |c.trace| then one.trace[|c.trace|] != d[i].insts[0]
                else one.trace == c.trace && one.pc.None?
  {
    if c.pc.Some? && Decoded(d, c.pc.value) {
      var j: nat :| j < |d| && d[j].offset == c.pc.value;
      FetchIs(d, j);
      assert j != i;
      assert d[j].insts == [d[j].insts[0]] && d[i].insts == [d[i].insts[0]];
    }
  }

  /** A block with an orphan inside: the list machine leaves before the orphan, the block goes on to it. */
  lemma OrphanBlockParts(d: seq<Insn>, leaders: seq<nat>, starts: seq<nat>, blocks: seq<Block>, oracle: Outcomes,
                         f: Conf, b: Conf,
                         k: nat, trace: seq<Inst>)
    requires Sorted(d) && FallsDecoded(d) && Labelled(d) && IsAssembly(d, leaders, starts, blocks)
    requires Agree(leaders, f, b) && b.pc.Some? && !StraightBlock(d, starts, b.pc.value)
    requires BlockStep(blocks, oracle, b).trace <= trace
    ensures FlatRun(d, oracle, f, k).trace != trace
  {
    hide *;
    var x := b.pc.value;
    AgreeAt(leaders, f, b);
    BlockAt(d, leaders, starts, blocks, x);
    var i := FirstOrphan(d, starts, x);
    Walk(d, leaders, starts, oracle, f, x, i - 1);
    FetchIs(d, i - 1);
    var steps := i - 1 - starts[x];
    var g := FlatRun(d, oracle, f, steps + 1);
    LastStep(d, oracle, f, steps, i - 1);
    ConcatTo(d, starts[x], i, f.trace);
    OrphanUnreached(d, leaders, starts, x, i, oracle, f.used);
    BlockEmits(d, starts, blocks, oracle, b, x, i);
    PrefixTrans(g.trace + d[i].insts, BlockStep(blocks, oracle, b).trace, trace);
    if k >= steps + 1 {
      RunJoin(d, oracle, f, steps + 1, k - (steps + 1));
      NotNext(d, oracle, g, i, k - (steps + 1), trace);
    } else {
      TraceGrows(d, oracle, f, k, steps + 1);
      LabelLength(d, i);
    }
  }

  lemma LabelLength(d: seq<Insn>, i: nat)
    requires Labelled(d) && i < |d|
    ensures |d[i].insts| == 1
  {
  }

  lemma PrefixTrans(a: seq<Inst>, b: seq<Inst>, c: seq<Inst>)
    requires a <= b && b <= c
    ensures a <= c && |a| <= |c|
  {
  }

  lemma LastStep(d: seq<Insn>, oracle: Outcomes, f: Conf, steps: nat, j: nat)
    requires j < |d| && Fetch(d, d[j].offset) == Some(j)
    requires FlatRun(d, oracle, f, steps).pc == Some(d[j].offset) && FlatRun(d, oracle, f, steps).used == f.used
    ensures FlatRun(d, oracle, f, steps + 1).trace == FlatRun(d, oracle, f, steps).trace + d[j].insts
    ensures FlatRun(d, oracle, f, steps + 1).pc == After(d[j], oracle, f.used).0
  {
    hide Fetch, After;
    assert FlatRun(d, oracle, f, steps + 1) == FlatStep(d, oracle, FlatRun(d, oracle, f, steps));
  }

  lemma StraightMore(d: seq<Insn>, starts: seq<nat>, k: nat, i: nat)
    requires k < |starts| && starts[k] < i < |d| && StraightTo(d, starts, k, i)
    requires d[i - 1].ctrl == Fall && d[i - 1].next == d[i].offset
    ensures StraightTo(d, starts, k, i + 1)
  {
    assert FallsInto(d, i);
  }

  /** The first instruction of the block that the one before it does not fall through to. */
  lemma FirstOrphan(d: seq<Insn>, starts: seq<nat>, k: nat) returns (i: nat)
    requires k < |starts| && starts[k] < EndOf(d, starts, k) <= |d| && !StraightBlock(d, starts, k)
    ensures starts[k] < i < EndOf(d, starts, k) && StraightTo(d, starts, k, i)
    ensures !(d[i - 1].ctrl == Fall && d[i - 1].next == d[i].offset)
  {
    i := starts[k] + 1;
    while i < EndOf(d, starts, k) && d[i - 1].ctrl == Fall && d[i - 1].next == d[i].offset
      invariant starts[k] < i <= EndOf(d, starts, k) && StraightTo(d, starts, k, i)
    {
      StraightMore(d, starts, k, i);
      i := i + 1;
    }
  }

  lemma BlockEmits(d: seq<Insn>, starts: seq<nat>, blocks: seq<Block>, oracle: Outcomes, b: Conf, x: nat, i: nat)
    requires b.pc == Some(x) && x < |blocks| && x < |starts| && starts[x] <= i < EndOf(d, starts, x) <= |d|
    requires blocks[x].insts == Concat(d[starts[x]..EndOf(d, starts, x)])
    ensures b.trace + Concat(d[starts[x]..i]) + d[i].insts <= BlockStep(blocks, oracle, b).trace
  {
    ConcatTo(d, starts[x], i + 1, b.trace);
    ConcatPrefix(d, starts[x], i + 1, EndOf(d, starts, x));
    hide Concat, EndOf;
  }

  lemma {:induction false} ConcatPrefix(d: seq<Insn>, s: nat, i: nat, e: nat)
    requires s <= i <= e <= |d|
    ensures Concat(d[s..i]) <= Concat(d[s..e])
    decreases e
  {
    if i < e {
      ConcatPrefix(d, s, i, e - 1);
      assert d[s..e][..|d[s..e]| - 1] == d[s..e - 1];
    }
  }

  /**
   When instructions can be told apart: the blocks' trace is a trace of the list
   if and only if no entered block has code behind a gap appended to it.
   */
  lemma AgreesExactly(d: seq<Insn>, leaders: seq<nat>, starts: seq<nat>, blocks: seq<Block>, oracle: Outcomes, m: nat)
    requires Sorted(d) && d != [] && FallsDecoded(d) && Labelled(d) && IsAssembly(d, leaders, starts, blocks)
    ensures EntersStraight(d, starts, blocks, oracle, BlockStart, m) <==>
            exists k: nat :: FlatRun(d, oracle, FlatStart(d), k).trace == BlockRun(blocks, oracle, BlockStart, m).trace
  {
    hide Sorted, FallsDecoded, Labelled, IsAssembly, StraightBlock, FlatRun, BlockRun;
    if EntersStraight(d, starts, blocks, oracle, BlockStart, m) {
      var k := EnteredAgree(d, leaders, starts, blocks, oracle, m);
      assert FlatRun(d, oracle, FlatStart(d), k).trace == BlockRun(blocks, oracle, BlockStart, m).trace;
    } else {
      forall k: nat ensures FlatRun(d, oracle, FlatStart(d), k).trace != BlockRun(blocks, oracle, BlockStart, m).trace {
        TracesPart(d, leaders, starts, blocks, oracle, m, k);
      }
    }
  }

  /** The first step that enters a block with an orphan. */
  lemma {:induction false} FirstEntered(d: seq<Insn>, starts: seq<nat>, blocks: seq<Block>, oracle: Outcomes, m: nat)
    returns (j: nat)
    requires !EntersStraight(d, starts, blocks, oracle, BlockStart, m)
    ensures j < m && BlockRun(blocks, oracle, BlockStart, j).pc.Some?
    ensures !StraightBlock(d, starts, BlockRun(blocks, oracle, BlockStart, j).pc.value)
    ensures EntersStraight(d, starts, blocks, oracle, BlockStart, j)
  {
    hide StraightBlock, BlockRun;
    if EntersStraight(d, starts, blocks, oracle, BlockStart, m - 1) {
      j := m - 1;
    } else {
      j := FirstEntered(d, starts, blocks, oracle, m - 1);
    }
  }

  lemma TracesPart(d: seq<Insn>, leaders: seq<nat>, starts: seq<nat>, blocks: seq<Block>, oracle: Outcomes, m: nat,
                   k: nat)
    requires Sorted(d) && d != [] && FallsDecoded(d) && Labelled(d) && IsAssembly(d, leaders, starts, blocks)
    requires !EntersStraight(d, starts, blocks, oracle, BlockStart, m)
    ensures FlatRun(d, oracle, FlatStart(d), k).trace != BlockRun(blocks, oracle, BlockStart, m).trace
  {
    hide *;
    var j := FirstEntered(d, starts, blocks, oracle, m);
    StartsAgree(d, leaders, starts, blocks);
    var k0 := RunSimulates(d, leaders, starts, blocks, oracle, FlatStart(d), BlockStart, j);
    var f, b := FlatRun(d, oracle, FlatStart(d), k0), BlockRun(blocks, oracle, BlockStart, j);
    var trace := BlockRun(blocks, oracle, BlockStart, m).trace;
    NextBlock(blocks, oracle, j);
    BlockTraceGrows(blocks, oracle, BlockStart, j + 1, m);
    if k >= k0 {
      RunJoin(d, oracle, FlatStart(d), k0, k - k0);
      OrphanBlockParts(d, leaders, starts, blocks, oracle, f, b, k - k0, trace);
    } else {
      OrphanBlockParts(d, leaders, starts, blocks, oracle, f, b, 0, trace);
      NoSteps(d, oracle, f);
      TraceGrows(d, oracle, FlatStart(d), k, k0);
      OrphanBlockLonger(d, leaders, starts, blocks, oracle, f, b);
      PrefixTrans(f.trace, BlockStep(blocks, oracle, b).trace, trace);
    }
  }

  lemma NoSteps(d: seq<Insn>, oracle: Outcomes, f: Conf)
    ensures FlatRun(d, oracle, f, 0) == f
  {
  }

  lemma NextBlock(blocks: seq<Block>, oracle: Outcomes, j: nat)
    ensures BlockRun(blocks, oracle, BlockStart, j + 1) ==
            BlockStep(blocks, oracle, BlockRun(blocks, oracle, BlockStart, j))
  {
  }

  lemma OrphanBlockLonger(d: seq<Insn>, leaders: seq<nat>, starts: seq<nat>, blocks: seq<Block>, oracle: Outcomes,
                          f: Conf, b: Conf)
    requires IsAssembly(d, leaders, starts, blocks) && Agree(leaders, f, b) && b.pc.Some?
    ensures f.trace <= BlockStep(blocks, oracle, b).trace
  {
    hide IsAssembly;
  }

  /**
   A return followed by a gap: the code behind the gap is appended to the
   returning block, and the blocks emit it although the list stops before it.
   */
  lemma OrphanRuns(a: Inst, b: Inst, oracle: Outcomes, blocks: seq<Block>)
    requires Assembled([Insn(0, 4, [a], Ret), Insn(8, 12, [b], Ret)], blocks)
    ensures var d := [Insn(0, 4, [a], Ret), Insn(8, 12, [b], Ret)];
            && Sorted(d) && TargetsDecoded(d) && FallsDecoded(d) && !NoOrphans(d)
            && BlockRun(blocks, oracle, BlockStart, 1).trace == [a, b]
            && forall k: nat :: |FlatRun(d, oracle, FlatStart(d), k).trace| <= 1
  {
    var d := [Insn(0, 4, [a], Ret), Insn(8, 12, [b], Ret)];
    OrphanFacts(d);
    hide *;
    OrphanBlock(d, a, b, oracle, blocks);
    forall k: nat ensures |FlatRun(d, oracle, FlatStart(d), k).trace| <= 1 {
      StopsAtReturn(d, oracle, k);
    }
  }

  lemma OrphanFacts(d: seq<Insn>)
    requires |d| == 2 && d[0].offset == 0 && d[0].next == 4 && d[1].offset == 8 && d[1].next == 12
    requires d[0].ctrl == Ret && d[1].ctrl == Ret
    ensures Sorted(d) && TargetsDecoded(d) && FallsDecoded(d) && !NoOrphans(d) && !IsLeader(d, d[1].offset)
  {
    var j := 1;
    assert j == 0 + 1 && d[0].next != d[j].offset;
  }

  lemma OrphanBlock(d: seq<Insn>, a: Inst, b: Inst, oracle: Outcomes, blocks: seq<Block>)
    requires d == [Insn(0, 4, [a], Ret), Insn(8, 12, [b], Ret)] && Assembled(d, blocks) && !IsLeader(d, d[1].offset)
    ensures BlockRun(blocks, oracle, BlockStart, 1).trace == [a, b]
  {
    hide Sorted, Decoded;
    var leaders: seq<nat>, starts: seq<nat> :| IsAssembly(d, leaders, starts, blocks);
    assert 1 !in starts;
    OnlyStart(starts);
    assert EndOf(d, starts, 0) == 2;
    assert IsBlock(d, leaders, starts, 0, blocks[0]);
    hide IsAssembly, IsStarts, IsLeader, EndOf;
    ConcatSnoc([], d[0]);
    ConcatSnoc([d[0]], d[1]);
    assert d[0..2] == d && d == [d[0]] + [d[1]] && [] + [d[0]] == [d[0]];
    assert Concat(d) == [a, b];
    assert BlockRun(blocks, oracle, BlockStart, 1) == BlockStep(blocks, oracle, BlockStart);
  }

  lemma OnlyStart(starts: seq<nat>)
    requires starts != [] && starts[0] == 0 && Ascending(starts) && 1 !in starts
    requires forall k: nat :: k < |starts| ==> starts[k] < 2
    ensures |starts| == 1
  {
    var last := starts[|starts| - 1];
    assert forall k: nat :: k < |starts| ==> starts[k] == 0;
  }

  lemma StopsAtReturn(d: seq<Insn>, oracle: Outcomes, k: nat)
    requires Sorted(d) && |d| == 2 && d[0].ctrl == Ret && |d[0].insts| == 1
    ensures |FlatRun(d, oracle, FlatStart(d), k).trace| <= 1
  {
    if k > 0 {
      FetchIs(d, 0);
      var one := FlatRun(d, oracle, FlatStart(d), 1);
      assert one == FlatStep(d, oracle, FlatRun(d, oracle, FlatStart(d), 0));
      assert one.pc.None?;
      TraceGrows(d, oracle, FlatStart(d), 1, k);
    }
  }
}
