/**
 Which instruction lists are assembled faithfully, read off the list alone: no
 leader that its control flow reaches starts a block with code behind a gap
 (crates/asm/src/blocks.rs).
 */
module AssemblyFlow {
  import opened Wrappers
  import opened Assembly
  import opened Ir
  import opened AssemblyRuns

  // ------------------------------------------------------------ the list's control flow

  /** Control may go from instruction `a` to instruction `b`. */
  predicate Goes(d: seq<Insn>, a: nat, b: nat) {
    && a < |d| && b < |d|
    && match d[a].ctrl
       case Fall => d[a].next == d[b].offset
       case Ret => false
       case Jmp(t) => t == d[b].offset
       case Jcc(t, _) => t == d[b].offset || d[a].next == d[b].offset
  }

  ghost predicate FlowPath(d: seq<Insn>, p: seq<nat>) {
    && p != [] && p[0] == 0 && 0 < |d|
    && forall i: nat, j: nat :: j == i + 1 < |p| ==> Goes(d, p[i], p[j])
  }

  /** The list's control flow leads from its first instruction to instruction `i`. */
  ghost predicate Reached(d: seq<Insn>, i: nat) {
    exists p :: FlowPath(d, p) && p[|p| - 1] == i
  }

  /** Instruction `j` is behind a gap in the block that starts at `i`. */
  ghost predicate Orphan(d: seq<Insn>, i: nat, j: nat) {
    i < j < |d| && !FallsInto(d, j) && forall y: nat :: i < y <= j ==> !IsLeader(d, d[y].offset)
  }

  ghost predicate OrphanFree(d: seq<Insn>) {
    forall i: nat, j: nat :: Reached(d, i) && i < |d| && IsLeader(d, d[i].offset) ==> !Orphan(d, i, j)
  }

  lemma ReachedStart(d: seq<Insn>)
    requires d != []
    ensures Reached(d, 0)
  {
    assert FlowPath(d, [0]);
  }

  lemma ReachedNext(d: seq<Insn>, a: nat, b: nat)
    requires Reached(d, a) && Goes(d, a, b)
    ensures Reached(d, b)
  {
    var p :| FlowPath(d, p) && p[|p| - 1] == a;
    var q := p + [b];
    hide Goes;
    assert FlowPath(d, q) && q[|q| - 1] == b;
  }

  // ------------------------------------------------------------ without orphans the blocks are right

  /** The list machine only ever stands at reached instructions. */
  lemma {:induction false} StandsReached(d: seq<Insn>, oracle: Outcomes, k: nat, i: nat)
    requires Sorted(d) && d != [] && i < |d| && FlatRun(d, oracle, FlatStart(d), k).pc == Some(d[i].offset)
    ensures Reached(d, i)
  {
    if k == 0 {
      ReachedStart(d);
      FetchIs(d, 0);
      FetchIs(d, i);
    } else {
      var c := FlatRun(d, oracle, FlatStart(d), k - 1);
      StepBack(d, oracle, c, i);
      var j: nat :| j < |d| && c.pc == Some(d[j].offset) && Goes(d, j, i);
      hide FlatRun, Sorted, Goes, Reached;
      StandsReached(d, oracle, k - 1, j);
      ReachedNext(d, j, i);
    }
  }

  lemma StepBack(d: seq<Insn>, oracle: Outcomes, c: Conf, i: nat)
    requires i < |d| && FlatStep(d, oracle, c).pc == Some(d[i].offset)
    ensures exists j: nat :: j < |d| && c.pc == Some(d[j].offset) && Goes(d, j, i)
  {
    var j := Fetch(d, c.pc.value).value;
  }

  lemma FreeStraight(d: seq<Insn>, leaders: seq<nat>, starts: seq<nat>, x: nat)
    requires IsStarts(d, leaders, starts) && x < |starts| && EndOf(d, starts, x) <= |d|
    requires OrphanFree(d) && Reached(d, starts[x])
    ensures StraightBlock(d, starts, x)
  {
    forall i: nat | starts[x] < i < EndOf(d, starts, x) ensures FallsInto(d, i) {
      forall y: nat | starts[x] < y <= i ensures !IsLeader(d, d[y].offset) {
        BetweenStarts(d, leaders, starts, x, y);
      }
      assert starts[x] in starts;
      hide IsLeader, FallsInto, Reached;
      assert !Orphan(d, starts[x], i);
    }
  }

  /** If no reached leader has an orphan, only straight-line blocks are entered. */
  lemma {:induction false} FreeEnters(d: seq<Insn>, leaders: seq<nat>, starts: seq<nat>, blocks: seq<Block>,
                                      oracle: Outcomes, m: nat)
    requires Sorted(d) && d != [] && IsAssembly(d, leaders, starts, blocks) && OrphanFree(d)
    ensures EntersStraight(d, starts, blocks, oracle, BlockStart, m)
  {
    hide StraightBlock, BlockRun, Sorted, IsAssembly, OrphanFree;
    if m > 0 {
      FreeEnters(d, leaders, starts, blocks, oracle, m - 1);
      var b := BlockRun(blocks, oracle, BlockStart, m - 1);
      if b.pc.Some? {
        EnteredReached(d, leaders, starts, blocks, oracle, m - 1);
        FreeStraight(d, leaders, starts, b.pc.value);
      }
    }
  }

  /** The leader of a block that is entered is reached. */
  lemma EnteredReached(d: seq<Insn>, leaders: seq<nat>, starts: seq<nat>, blocks: seq<Block>, oracle: Outcomes, m: nat)
    requires Sorted(d) && d != [] && IsAssembly(d, leaders, starts, blocks)
    requires EntersStraight(d, starts, blocks, oracle, BlockStart, m)
    requires BlockRun(blocks, oracle, BlockStart, m).pc.Some?
    ensures IsStarts(d, leaders, starts)
    ensures var x := BlockRun(blocks, oracle, BlockStart, m).pc.value;
            x < |starts| && EndOf(d, starts, x) <= |d| && Reached(d, starts[x])
  {
    hide *;
    StartsAgree(d, leaders, starts, blocks);
    var k := RunSimulates(d, leaders, starts, blocks, oracle, FlatStart(d), BlockStart, m);
    var f, b := FlatRun(d, oracle, FlatStart(d), k), BlockRun(blocks, oracle, BlockStart, m);
    AgreeAt(leaders, f, b);
    BlockAt(d, leaders, starts, blocks, b.pc.value);
    StartAt(d, leaders, starts, b.pc.value);
    StandsReached(d, oracle, k, starts[b.pc.value]);
  }

  lemma StartAt(d: seq<Insn>, leaders: seq<nat>, starts: seq<nat>, x: nat)
    requires IsStarts(d, leaders, starts) && x < |starts|
    ensures starts[x] < |d| && d[starts[x]].offset == leaders[x] && IsLeader(d, leaders[x])
  {
    assert starts[x] in starts;
  }

  // ------------------------------------------------------------ an orphan in reach is run

  /** Outcomes that take the path: one for each conditional branch on it. */
  function Outs(d: seq<Insn>, p: seq<nat>): seq<bool>
    requires forall k :: 0 <= k < |p| ==> p[k] < |d|
  {
    if |p| < 2 then []
    else
      var from := d[p[|p| - 2]];
      Outs(d, p[..|p| - 1]) + if from.ctrl.Jcc? then [from.ctrl.target == d[p[|p| - 1]].offset] else []
  }

  function Scripted(outs: seq<bool>): Outcomes {
    (n: nat) => n < |outs| && outs[n]
  }

  lemma OnList(d: seq<Insn>, p: seq<nat>)
    requires FlowPath(d, p)
    ensures forall k :: 0 <= k < |p| ==> p[k] < |d|
  {
    forall k | 0 <= k < |p| ensures p[k] < |d| {
      if k > 0 {
        var i := k - 1;
        assert Goes(d, p[i], p[k]);
      }
    }
  }

  lemma PathInit(d: seq<Insn>, p: seq<nat>)
    requires FlowPath(d, p) && |p| >= 2
    ensures FlowPath(d, p[..|p| - 1]) && Goes(d, p[|p| - 2], p[|p| - 1])
  {
    hide Goes;
    var q, i, j := p[..|p| - 1], |p| - 2, |p| - 1;
    forall a: nat, b: nat | b == a + 1 < |q| ensures Goes(d, q[a], q[b]) {
      assert Goes(d, p[a], p[b]);
    }
    assert Goes(d, p[i], p[j]);
  }

  /** With these outcomes, and any after them, the list machine follows the path. */
  lemma {:induction false} Follows(d: seq<Insn>, p: seq<nat>, outs: seq<bool>)
    requires Sorted(d) && FlowPath(d, p) && (forall k :: 0 <= k < |p| ==> p[k] < |d|) && Outs(d, p) <= outs
    ensures var c := FlatRun(d, Scripted(outs), FlatStart(d), |p| - 1);
            c.pc == Some(d[p[|p| - 1]].offset) && c.used == |Outs(d, p)|
    decreases |p|
  {
    var oracle := Scripted(outs);
    if |p| == 1 {
      assert p == [0];
    } else {
      PathInit(d, p);
      var q := p[..|p| - 1];
      Follows(d, q, outs);
      var a, b := p[|p| - 2], p[|p| - 1];
      assert q[|q| - 1] == a;
      FetchIs(d, a);
      hide Fetch, FlowPath, Sorted;
      if d[a].ctrl.Jcc? {
        assert oracle(|Outs(d, q)|) == (d[a].ctrl.target == d[b].offset);
      }
      assert FlatRun(d, oracle, FlatStart(d), |p| - 1) ==
             FlatStep(d, oracle, FlatRun(d, oracle, FlatStart(d), |q| - 1));
    }
  }

  ghost predicate AlwaysStraight(d: seq<Insn>, starts: seq<nat>, blocks: seq<Block>, oracle: Outcomes) {
    forall m: nat :: EntersStraight(d, starts, blocks, oracle, BlockStart, m)
  }

  /** The list machine after `k` steps is at instruction `i`, inside the block the other machine is about to run. */
  ghost predicate Inside(d: seq<Insn>, starts: seq<nat>, f: Conf, b: Conf, x: nat, i: nat) {
    && x < |starts| && starts[x] <= i < EndOf(d, starts, x) <= |d| && b.pc == Some(x)
    && f.pc == Some(d[i].offset) && f.used == b.used
  }

  lemma StepsInside(d: seq<Insn>, starts: seq<nat>, oracle: Outcomes, f: Conf, b: Conf, x: nat, i: nat)
    requires Sorted(d) && Inside(d, starts, f, b, x, i) && StraightBlock(d, starts, x) && i + 1 < EndOf(d, starts, x)
    ensures Inside(d, starts, FlatStep(d, oracle, f), b, x, i + 1)
  {
    FetchIs(d, i);
    hide Sorted, Fetch, EndOf;
    assert FallsInto(d, i + 1);
  }

  lemma StepsOver(d: seq<Insn>, leaders: seq<nat>, starts: seq<nat>, blocks: seq<Block>, oracle: Outcomes,
                  f: Conf, b: Conf, x: nat, i: nat) returns (y: nat)
    requires Sorted(d) && IsAssembly(d, leaders, starts, blocks) && Inside(d, starts, f, b, x, i)
    requires i + 1 == EndOf(d, starts, x) && FlatStep(d, oracle, f).pc.Some?
    ensures y < |starts|
    ensures Inside(d, starts, FlatStep(d, oracle, f), BlockStep(blocks, oracle, b), y, starts[y])
  {
    hide Sorted, IsAssembly, EndOf, Concat, IsStarts;
    FetchIs(d, i);
    StartsCount(d, leaders, starts, blocks);
    BlockAt(d, leaders, starts, blocks, x);
    TermAgrees(d[i], leaders, blocks[x].term, oracle, f.used);
    hide Fetch, Terminates;
    y := AfterBlock(blocks[x].term, oracle, b.used).0.value;
    hide After, AfterBlock;
    BlockAt(d, leaders, starts, blocks, y);
    StartAt(d, leaders, starts, y);
  }

  lemma StartsCount(d: seq<Insn>, leaders: seq<nat>, starts: seq<nat>, blocks: seq<Block>)
    requires IsAssembly(d, leaders, starts, blocks)
    ensures IsStarts(d, leaders, starts) && |starts| == |leaders| == |blocks| && starts != [] && starts[0] == 0
  {
  }

  lemma StraightNow(d: seq<Insn>, starts: seq<nat>, blocks: seq<Block>, oracle: Outcomes, m: nat)
    requires AlwaysStraight(d, starts, blocks, oracle) && BlockRun(blocks, oracle, BlockStart, m).pc.Some?
    ensures StraightBlock(d, starts, BlockRun(blocks, oracle, BlockStart, m).pc.value)
  {
    hide StraightBlock, BlockRun;
    assert EntersStraight(d, starts, blocks, oracle, BlockStart, m + 1);
  }

  /** If all blocks entered are straight, the list machine never leaves the blocks the other machine runs. */
  lemma {:induction false} FlatInBlocks(d: seq<Insn>, leaders: seq<nat>, starts: seq<nat>, blocks: seq<Block>,
                                        oracle: Outcomes, k: nat) returns (m: nat, x: nat, i: nat)
    requires Sorted(d) && d != [] && IsAssembly(d, leaders, starts, blocks) && AlwaysStraight(d, starts, blocks, oracle)
    requires FlatRun(d, oracle, FlatStart(d), k).pc.Some?
    ensures Inside(d, starts, FlatRun(d, oracle, FlatStart(d), k), BlockRun(blocks, oracle, BlockStart, m), x, i)
  {
    hide *;
    StartsCount(d, leaders, starts, blocks);
    if k == 0 {
      m, x, i := 0, 0, 0;
      BlockAt(d, leaders, starts, blocks, 0);
      InsideStart(d, starts, blocks, oracle);
    } else {
      FlatLast(d, oracle, k);
      var f := FlatRun(d, oracle, FlatStart(d), k - 1);
      m, x, i := FlatInBlocks(d, leaders, starts, blocks, oracle, k - 1);
      var b := BlockRun(blocks, oracle, BlockStart, m);
      InsideParts(d, starts, f, b, x, i);
      StraightNow(d, starts, blocks, oracle, m);
      if i + 1 < EndOf(d, starts, x) {
        StepsInside(d, starts, oracle, f, b, x, i);
        i := i + 1;
      } else {
        x := StepsOver(d, leaders, starts, blocks, oracle, f, b, x, i);
        NextBlock(blocks, oracle, m);
        m, i := m + 1, starts[x];
      }
    }
  }

  lemma InsideStart(d: seq<Insn>, starts: seq<nat>, blocks: seq<Block>, oracle: Outcomes)
    requires d != [] && starts != [] && starts[0] == 0 < EndOf(d, starts, 0) <= |d|
    ensures Inside(d, starts, FlatRun(d, oracle, FlatStart(d), 0), BlockRun(blocks, oracle, BlockStart, 0), 0, 0)
  {
  }

  lemma InsideParts(d: seq<Insn>, starts: seq<nat>, f: Conf, b: Conf, x: nat, i: nat)
    requires Inside(d, starts, f, b, x, i)
    ensures x < |starts| && starts[x] <= i < EndOf(d, starts, x) <= |d| && b.pc == Some(x)
    ensures f.pc == Some(d[i].offset)
  {
  }

  lemma FlatLast(d: seq<Insn>, oracle: Outcomes, k: nat)
    requires d != [] && k > 0 && FlatRun(d, oracle, FlatStart(d), k).pc.Some?
    ensures var f := FlatRun(d, oracle, FlatStart(d), k - 1);
            f.pc.Some? && FlatRun(d, oracle, FlatStart(d), k) == FlatStep(d, oracle, f)
  {
  }

  lemma EndLeader(d: seq<Insn>, leaders: seq<nat>, starts: seq<nat>, x: nat)
    requires IsStarts(d, leaders, starts) && x < |starts|
    ensures EndOf(d, starts, x) < |d| ==> IsLeader(d, d[EndOf(d, starts, x)].offset)
  {
    if x + 1 < |starts| {
      StartAt(d, leaders, starts, x + 1);
    }
  }

  /** A straight block has no orphan. */
  lemma StraightNoOrphan(d: seq<Insn>, leaders: seq<nat>, starts: seq<nat>, x: nat, i: nat, j: nat)
    requires IsStarts(d, leaders, starts) && x < |starts| && StraightBlock(d, starts, x)
    requires starts[x] <= i < EndOf(d, starts, x)
    ensures !Orphan(d, i, j)
  {
    EndLeader(d, leaders, starts, x);
    hide IsStarts, IsLeader, EndOf, FallsInto;
  }

  /** Follow the path to an orphan's leader: some entered block is not straight. */
  lemma ReachedOrphanRuns(d: seq<Insn>, leaders: seq<nat>, starts: seq<nat>, blocks: seq<Block>, i: nat, j: nat)
    returns (oracle: Outcomes)
    requires Sorted(d) && d != [] && IsAssembly(d, leaders, starts, blocks)
    requires Reached(d, i) && i < |d| && IsLeader(d, d[i].offset) && Orphan(d, i, j)
    ensures !AlwaysStraight(d, starts, blocks, oracle)
  {
    var p :| FlowPath(d, p) && p[|p| - 1] == i;
    OnList(d, p);
    oracle := Scripted(Outs(d, p));
    Follows(d, p, Outs(d, p));
    hide *;
    if AlwaysStraight(d, starts, blocks, oracle) {
      var m, x, at := FlatInBlocks(d, leaders, starts, blocks, oracle, |p| - 1);
      InsideParts(d, starts, FlatRun(d, oracle, FlatStart(d), |p| - 1), BlockRun(blocks, oracle, BlockStart, m), x, at);
      FetchIs(d, at);
      FetchIs(d, i);
      StraightNow(d, starts, blocks, oracle, m);
      StartsCount(d, leaders, starts, blocks);
      StraightNoOrphan(d, leaders, starts, x, i, j);
    }
  }

  // ------------------------------------------------------------ exactly which lists

  /** For all outcomes and any number of blocks, the list has a run with the blocks' trace. */
  ghost predicate AlwaysAgrees(d: seq<Insn>, blocks: seq<Block>)
    requires d != []
  {
    forall oracle: Outcomes, m: nat :: AgreesAt(d, blocks, oracle, m)
  }

  ghost predicate AgreesAt(d: seq<Insn>, blocks: seq<Block>, oracle: Outcomes, m: nat)
    requires d != []
  {
    exists k: nat :: FlatRun(d, oracle, FlatStart(d), k).trace == BlockRun(blocks, oracle, BlockStart, m).trace
  }

  lemma AgreesStraight(d: seq<Insn>, leaders: seq<nat>, starts: seq<nat>, blocks: seq<Block>, oracle: Outcomes, m: nat)
    requires Sorted(d) && d != [] && FallsDecoded(d) && Labelled(d) && IsAssembly(d, leaders, starts, blocks)
    ensures AgreesAt(d, blocks, oracle, m) <==> EntersStraight(d, starts, blocks, oracle, BlockStart, m)
  {
    hide *;
    if EntersStraight(d, starts, blocks, oracle, BlockStart, m) {
      var k := EnteredAgree(d, leaders, starts, blocks, oracle, m);
      SameTrace(d, blocks, oracle, m, k);
    } else if AgreesAt(d, blocks, oracle, m) {
      var k := AgreedStep(d, blocks, oracle, m);
      TracesPart(d, leaders, starts, blocks, oracle, m, k);
    }
  }

  lemma SameTrace(d: seq<Insn>, blocks: seq<Block>, oracle: Outcomes, m: nat, k: nat)
    requires d != [] && SameAfter(d, blocks, oracle, m, k)
    ensures AgreesAt(d, blocks, oracle, m)
  {
    hide FlatRun, BlockRun;
    assert FlatRun(d, oracle, FlatStart(d), k).trace == BlockRun(blocks, oracle, BlockStart, m).trace;
  }

  lemma AgreedStep(d: seq<Insn>, blocks: seq<Block>, oracle: Outcomes, m: nat) returns (k: nat)
    requires d != [] && AgreesAt(d, blocks, oracle, m)
    ensures FlatRun(d, oracle, FlatStart(d), k).trace == BlockRun(blocks, oracle, BlockStart, m).trace
  {
    hide FlatRun, BlockRun;
    k :| FlatRun(d, oracle, FlatStart(d), k).trace == BlockRun(blocks, oracle, BlockStart, m).trace;
  }

  /**
   When instructions can be told apart: the blocks do what the list does, for all
   branch outcomes and however long they run, if and only if no leader that the
   list's control flow reaches starts a block with code behind a gap.
   */
  lemma FaithfulExactly(d: seq<Insn>, blocks: seq<Block>)
    requires Sorted(d) && d != [] && FallsDecoded(d) && Labelled(d) && Assembled(d, blocks)
    ensures AlwaysAgrees(d, blocks) <==> OrphanFree(d)
  {
    var leaders: seq<nat>, starts: seq<nat> :| IsAssembly(d, leaders, starts, blocks);
    hide Sorted, FallsDecoded, Labelled, IsAssembly, AgreesAt, EntersStraight, Reached, Orphan, IsLeader;
    if OrphanFree(d) {
      forall oracle: Outcomes, m: nat ensures AgreesAt(d, blocks, oracle, m) {
        FreeEnters(d, leaders, starts, blocks, oracle, m);
        AgreesStraight(d, leaders, starts, blocks, oracle, m);
      }
    } else {
      var i: nat, j: nat :| Reached(d, i) && i < |d| && IsLeader(d, d[i].offset) && Orphan(d, i, j);
      var oracle := ReachedOrphanRuns(d, leaders, starts, blocks, i, j);
      var m: nat :| !EntersStraight(d, starts, blocks, oracle, BlockStart, m);
      AgreesStraight(d, leaders, starts, blocks, oracle, m);
    }
  }

  /** Whatever the instructions emit: code behind gaps that no reached leader is followed by does no harm. */
  lemma TracesAgree(d: seq<Insn>, blocks: seq<Block>, oracle: Outcomes, m: nat) returns (k: nat)
    requires Sorted(d) && d != [] && Assembled(d, blocks) && OrphanFree(d)
    ensures SameAfter(d, blocks, oracle, m, k)
  {
    var leaders: seq<nat>, starts: seq<nat> :| IsAssembly(d, leaders, starts, blocks);
    hide *;
    FreeEnters(d, leaders, starts, blocks, oracle, m);
    k := EnteredAgree(d, leaders, starts, blocks, oracle, m);
  }

  /** Nothing the list emits is lost: after as many blocks, all of it has been emitted. */
  lemma NothingLost(d: seq<Insn>, blocks: seq<Block>, oracle: Outcomes, n: nat)
    requires Sorted(d) && d != [] && Assembled(d, blocks) && OrphanFree(d)
    ensures FlatRun(d, oracle, FlatStart(d), n).trace <= BlockRun(blocks, oracle, BlockStart, n).trace
  {
    hide Sorted, Assembled, OrphanFree, FlatRun, BlockRun;
    var k := TracesAgree(d, blocks, oracle, n);
    if k >= n {
      TraceGrows(d, oracle, FlatStart(d), n, k);
    } else {
      TraceGrows(d, oracle, FlatStart(d), k, n);
    }
  }

  lemma GapOrFall(d: seq<Insn>, j: nat)
    requires Sorted(d) && NoOrphans(d) && 0 < j < |d|
    ensures FallsInto(d, j) || IsLeader(d, d[j].offset)
  {
    var k := j - 1;
    assert j == k + 1 && (d[k].next == d[j].offset || IsLeader(d, d[j].offset));
    assert Decoded(d, d[j].offset);
    assert d[k].ctrl != Fall && d[k].next == d[j].offset ==> LeadsTo(d[k], d[j].offset);
  }

  /** In particular when behind every gap a block starts. */
  lemma NoOrphansFree(d: seq<Insn>)
    requires Sorted(d) && NoOrphans(d)
    ensures OrphanFree(d)
  {
    forall j: nat | 0 < j < |d| ensures FallsInto(d, j) || IsLeader(d, d[j].offset) {
      GapOrFall(d, j);
    }
    hide IsLeader, FallsInto, Reached, Sorted, NoOrphans;
  }
}
