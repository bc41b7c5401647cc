/**
 Basic blocks from a decoded instruction list (crates/asm/src/blocks.rs).

 The list is in address order without overlaps. What the blocks are is stated
 through the leaders; building succeeds exactly when every branch target and
 every fall-through is a decoded offset.
 */
module Assembly {
  import opened Wrappers
  import opened Ir

  datatype Ctrl = Fall | Ret | Jmp(target: nat) | Jcc(target: nat, cond: nat)

  /** A decoded instruction: its byte span, what it does, and how control leaves it. */
  datatype Insn = Insn(offset: nat, next: nat, insts: seq<Inst>, ctrl: Ctrl)

  datatype BuildError = NotBoundary | Dangling

  /** In address order, spans non-empty and not overlapping; gaps are possible. */
  ghost predicate Sorted(d: seq<Insn>) {
    && (forall i: nat :: i < |d| ==> d[i].offset < d[i].next)
    && (forall i: nat, j: nat :: i < j < |d| ==> d[i].next <= d[j].offset)
  }

  ghost predicate Decoded(d: seq<Insn>, o: nat) {
    exists i: nat :: i < |d| && d[i].offset == o
  }

  predicate Branches(x: Insn) {
    x.ctrl.Jmp? || x.ctrl.Jcc?
  }

  predicate FallsThrough(x: Insn) {
    x.ctrl.Fall? || x.ctrl.Jcc?
  }

  ghost predicate TargetsDecoded(d: seq<Insn>) {
    forall i: nat :: i < |d| && Branches(d[i]) ==> Decoded(d, d[i].ctrl.target)
  }

  ghost predicate FallsDecoded(d: seq<Insn>) {
    forall i: nat :: i < |d| && FallsThrough(d[i]) ==> Decoded(d, d[i].next)
  }

  /** Offset `o` starts a block because of `x`: it is its target, or follows it. */
  ghost predicate LeadsTo(x: Insn, o: nat) {
    match x.ctrl
    case Fall => false
    case Ret => o == x.next
    case Jmp(t) => o == t || o == x.next
    case Jcc(t, _) => o == t || o == x.next
  }

  ghost predicate IsLeader(d: seq<Insn>, o: nat) {
    Decoded(d, o) && ((d != [] && o == d[0].offset) || exists j: nat :: j < |d| && LeadsTo(d[j], o))
  }

  // ------------------------------------------------------------ sorted offsets

  ghost predicate Ascending(s: seq<nat>) {
    forall i: nat, j: nat :: i < j < |s| ==> s[i] < s[j]
  }

  method Smallest(s: set<nat>) returns (m: nat)
    requires s != {}
    ensures m in s && forall x: nat :: x in s ==> m <= x
  {
    var left := s;
    m :| m in left;
    left := left - {m};
    while left != {}
      invariant left <= s && m in s && forall x: nat :: x in s ==> m <= x || x in left
    {
      var x :| x in left;
      left := left - {x};
      if x < m {
        m := x;
      }
    }
  }

  /** The elements of a set in increasing order. */
  method InOrder(s: set<nat>) returns (q: seq<nat>)
    ensures Ascending(q) && forall x: nat :: x in q <==> x in s
  {
    q := [];
    var left := s;
    while left != {}
      invariant left <= s && Ascending(q) && forall x: nat :: x in s <==> x in q || x in left
      invariant forall x: nat, y: nat :: x in q && y in left ==> x < y
    {
      var m := Smallest(left);
      left := left - {m};
      assert forall i: nat :: i < |q| ==> q[i] in q;
      q := q + [m];
    }
  }

  // ------------------------------------------------------------ the specification of the blocks

  function Concat(d: seq<Insn>): seq<Inst> {
    if d == [] then [] else Concat(d[..|d| - 1]) + d[|d| - 1].insts
  }

  lemma ConcatSnoc(d: seq<Insn>, x: Insn)
    ensures Concat(d + [x]) == Concat(d) + x.insts
  {
    assert (d + [x])[..|d|] == d;
  }

  /** `starts[k]` is the instruction the `k`-th leader names. */
  ghost predicate IsStarts(d: seq<Insn>, leaders: seq<nat>, starts: seq<nat>) {
    && |starts| == |leaders| && d != [] && starts != [] && starts[0] == 0 && Ascending(starts)
    && (forall k: nat :: k < |starts| ==> starts[k] < |d| && d[starts[k]].offset == leaders[k])
    && (forall i: nat :: i < |d| ==> (i in starts <==> IsLeader(d, d[i].offset)))
  }

  ghost function EndOf(d: seq<Insn>, starts: seq<nat>, k: nat): nat
    requires k < |starts|
  {
    if k + 1 < |starts| then starts[k + 1] else |d|
  }

  ghost predicate Lists(leaders: seq<nat>, o: nat, k: nat) {
    k < |leaders| && leaders[k] == o
  }

  /** The terminator of a block that ends with `x`. */
  ghost predicate Terminates(x: Insn, leaders: seq<nat>, t: Terminator) {
    match x.ctrl
    case Ret => t == Return
    case Jmp(o) => t.Br? && t.args == [] && Lists(leaders, o, t.target)
    case Fall => t.Br? && t.args == [] && Lists(leaders, x.next, t.target)
    case Jcc(o, cond) =>
      && t.CondBr? && t.cond == Reg(cond) && t.thenArgs == [] && t.elseArgs == []
      && Lists(leaders, o, t.thenBlk) && Lists(leaders, x.next, t.elseBlk)
  }

  /** Block `k` holds the code from its leader up to the next one, and ends as the last instruction does. */
  ghost predicate IsBlock(d: seq<Insn>, leaders: seq<nat>, starts: seq<nat>, k: nat, b: Block)
    requires k < |starts| && starts[k] < EndOf(d, starts, k) <= |d|
  {
    && b.id == k && b.params == [] && b.insts == Concat(d[starts[k]..EndOf(d, starts, k)])
    && Terminates(d[EndOf(d, starts, k) - 1], leaders, b.term)
  }

  ghost predicate IsAssembly(d: seq<Insn>, leaders: seq<nat>, starts: seq<nat>, blocks: seq<Block>) {
    && IsStarts(d, leaders, starts) && |blocks| == |starts|
    && forall k: nat :: k < |blocks| ==>
        starts[k] < EndOf(d, starts, k) <= |d| && IsBlock(d, leaders, starts, k, blocks[k])
  }

  /** Some numbering of the leaders explains the blocks. */
  ghost predicate Assembled(d: seq<Insn>, blocks: seq<Block>) {
    exists leaders: seq<nat>, starts: seq<nat> :: IsAssembly(d, leaders, starts, blocks)
  }

  // ------------------------------------------------------------ building

  method OffsetsOf(d: seq<Insn>) returns (offsets: set<nat>)
    ensures forall o: nat :: o in offsets <==> Decoded(d, o)
  {
    offsets := {};
    for i := 0 to |d|
      invariant forall o: nat :: o in offsets <==> exists j: nat :: j < i && d[j].offset == o
    {
      offsets := offsets + {d[i].offset};
    }
  }

  /** Collect the leaders, stopping at the first branch to something that is not an instruction. */
  method LeadersOf(d: seq<Insn>, offsets: set<nat>) returns (r: Option<set<nat>>)
    requires d != [] && forall o: nat :: o in offsets <==> Decoded(d, o)
    ensures r.Some? <==> TargetsDecoded(d)
    ensures r.Some? ==> forall o: nat :: o in r.value <==>
            o == d[0].offset || exists j: nat :: j < |d| && LeadsTo(d[j], o)
  {
    var leaders := {d[0].offset};
    for i := 0 to |d|
      invariant forall j: nat :: j < i && Branches(d[j]) ==> Decoded(d, d[j].ctrl.target)
      invariant forall o: nat :: o in leaders <==> o == d[0].offset || exists j: nat :: j < i && LeadsTo(d[j], o)
    {
      match d[i].ctrl {
        case Jmp(t) =>
          if t !in offsets {
            return None;
          }
          leaders := leaders + {t, d[i].next};
        case Jcc(t, _) =>
          if t !in offsets {
            return None;
          }
          leaders := leaders + {t, d[i].next};
        case Ret =>
          leaders := leaders + {d[i].next};
        case Fall =>
      }
    }
    r := Some(leaders);
  }

  type BlockOf = map<nat, nat>

  ghost predicate Numbers(leaders: seq<nat>, blockOf: BlockOf) {
    && (forall k: nat :: k < |leaders| ==> leaders[k] in blockOf && blockOf[leaders[k]] == k)
    && (forall o: nat :: o in blockOf ==> Lists(leaders, o, blockOf[o]))
  }

  method NumberLeaders(leaders: seq<nat>) returns (blockOf: BlockOf)
    requires Ascending(leaders)
    ensures Numbers(leaders, blockOf)
  {
    blockOf := map[];
    for k := 0 to |leaders|
      invariant forall i: nat :: i < k ==> leaders[i] in blockOf && blockOf[leaders[i]] == i
      invariant forall o: nat :: o in blockOf ==> Lists(leaders, o, blockOf[o]) && blockOf[o] < k
    {
      blockOf := blockOf[leaders[k] := k];
    }
  }

  function Lookup(blockOf: BlockOf, o: nat): Option<nat> {
    if o in blockOf then Some(blockOf[o]) else None
  }

  /** The terminator for a block ending at `x`; nothing when a needed block does not exist. */
  function TerminatorFor(x: Insn, blockOf: BlockOf): Option<Terminator> {
    match x.ctrl
    case Ret => Some(Return)
    case Jmp(t) =>
      (match Lookup(blockOf, t)
       case Some(b) => Some(Br(b, []))
       case None => None)
    case Jcc(t, cond) =>
      (match (Lookup(blockOf, t), Lookup(blockOf, x.next))
       case (Some(b), Some(e)) => Some(CondBr(Reg(cond), b, [], e, []))
       case _ => None)
    case Fall =>
      (match Lookup(blockOf, x.next)
       case Some(b) => Some(Br(b, []))
       case None => None)
  }

  lemma TerminatorRight(x: Insn, leaders: seq<nat>, blockOf: BlockOf)
    requires Numbers(leaders, blockOf)
    ensures var r := TerminatorFor(x, blockOf);
            && (r.Some? ==> Terminates(x, leaders, r.value))
            && (r.Some? <==> (Branches(x) ==> x.ctrl.target in leaders) && (FallsThrough(x) ==> x.next in leaders))
  {
  }

  // ------------------------------------------------------------ leaders and instructions

  lemma OffsetsDistinct(d: seq<Insn>, i: nat, j: nat)
    requires Sorted(d) && i < j < |d|
    ensures d[i].offset < d[j].offset
  {
    assert d[i].next <= d[j].offset;
  }

  /** The indices of the leaders, in order. */
  ghost function StartsUpTo(d: seq<Insn>, leaders: seq<nat>, n: nat): seq<nat>
    requires n <= |d|
  {
    if n == 0 then []
    else StartsUpTo(d, leaders, n - 1) + (if d[n - 1].offset in leaders then [n - 1] else [])
  }

  /** `q` lists the instructions below `n` that are leaders, in step with `leaders`. */
  ghost predicate Matched(d: seq<Insn>, leaders: seq<nat>, q: seq<nat>, n: nat)
    requires n <= |d|
  {
    && Ascending(q) && |q| <= |leaders|
    && (forall i: nat :: i in q <==> i < n && d[i].offset in leaders)
    && (forall k: nat :: k < |q| ==> q[k] < n && d[q[k]].offset == leaders[k])
    && (forall k: nat :: |q| <= k < |leaders| ==> Beyond(d, n, leaders[k]))
  }

  ghost predicate Beyond(d: seq<Insn>, n: nat, o: nat)
    requires n <= |d|
  {
    forall i: nat :: i < n ==> d[i].offset < o
  }

  lemma {:induction false} StartsMatch(d: seq<Insn>, leaders: seq<nat>, n: nat)
    requires Sorted(d) && n <= |d| && Ascending(leaders)
    requires forall o: nat :: o in leaders ==> Decoded(d, o)
    ensures Matched(d, leaders, StartsUpTo(d, leaders, n), n)
  {
    if n > 0 {
      StartsMatch(d, leaders, n - 1);
      MatchStep(d, leaders, StartsUpTo(d, leaders, n - 1), n);
    }
  }

  lemma MatchStep(d: seq<Insn>, leaders: seq<nat>, q: seq<nat>, n: nat)
    requires Sorted(d) && 0 < n <= |d| && Ascending(leaders) && Matched(d, leaders, q, n - 1)
    requires forall o: nat :: o in leaders ==> Decoded(d, o)
    ensures Matched(d, leaders, q + (if d[n - 1].offset in leaders then [n - 1] else []), n)
  {
    SortedOffsets(d);
    if d[n - 1].offset in leaders {
      var k: nat :| k < |leaders| && leaders[k] == d[n - 1].offset;
      NextLeader(d, leaders, n, q, k);
      MatchTaken(d, leaders, q, n);
    } else {
      forall k: nat | |q| <= k < |leaders| ensures Beyond(d, n, leaders[k]) {
        assert leaders[k] in leaders;
        LaterLeader(d, leaders, n, k);
      }
      MatchSkipped(d, leaders, q, n);
    }
  }

  lemma MatchSkipped(d: seq<Insn>, leaders: seq<nat>, q: seq<nat>, n: nat)
    requires 0 < n <= |d| && Matched(d, leaders, q, n - 1) && d[n - 1].offset !in leaders
    requires forall k: nat :: |q| <= k < |leaders| ==> Beyond(d, n, leaders[k])
    ensures Matched(d, leaders, q, n)
  {
    hide Beyond;
  }

  lemma MatchTaken(d: seq<Insn>, leaders: seq<nat>, q: seq<nat>, n: nat)
    requires 0 < n <= |d| && Matched(d, leaders, q, n - 1) && |q| < |leaders| && leaders[|q|] == d[n - 1].offset
    requires Ascending(leaders) && forall i: nat, j: nat :: i < j < |d| ==> d[i].offset < d[j].offset
    ensures Matched(d, leaders, q + [n - 1], n)
  {
    var q' := q + [n - 1];
    assert Ascending(q') by {
      assert forall i: nat :: i < |q| ==> q[i] < n - 1;
    }
    forall k: nat | |q'| <= k < |leaders| ensures Beyond(d, n, leaders[k]) {
      assert leaders[|q|] < leaders[k];
    }
    forall i: nat ensures i in q' <==> i < n && d[i].offset in leaders {
      assert i in q' <==> i in q || i == n - 1;
    }
  }

  lemma LaterLeader(d: seq<Insn>, leaders: seq<nat>, n: nat, k: nat)
    requires Sorted(d) && 0 < n <= |d| && k < |leaders| && Decoded(d, leaders[k]) && leaders[k] != d[n - 1].offset
    requires Beyond(d, n - 1, leaders[k])
    ensures Beyond(d, n, leaders[k])
  {
    SortedOffsets(d);
  }

  lemma LeadersAt(d: seq<Insn>, leaders: seq<nat>)
    requires forall o: nat :: o in leaders ==> Decoded(d, o)
    ensures forall k: nat :: k < |leaders| ==> Decoded(d, leaders[k])
  {
  }

  lemma NextLeader(d: seq<Insn>, leaders: seq<nat>, n: nat, q: seq<nat>, k: nat)
    requires Sorted(d) && 0 < n <= |d| && Ascending(leaders) && k < |leaders| && leaders[k] == d[n - 1].offset
    requires Matched(d, leaders, q, n - 1) && forall o: nat :: o in leaders ==> Decoded(d, o)
    ensures k == |q|
  {
    SortedOffsets(d);
    LeadersAt(d, leaders);
    forall j: nat | j < |q| ensures leaders[j] < d[n - 1].offset {
      assert d[q[j]].offset == leaders[j];
    }
    assert k >= |q|;
    assert Beyond(d, n - 1, leaders[|q|]);
    assert leaders[|q|] >= d[n - 1].offset by {
      BeyondDecoded(d, n - 1, leaders[|q|]);
    }
  }

  lemma BeyondDecoded(d: seq<Insn>, n: nat, o: nat)
    requires n <= |d| && Decoded(d, o) && Beyond(d, n, o)
    requires forall i: nat, j: nat :: i < j < |d| ==> d[i].offset < d[j].offset
    ensures n < |d| && d[n].offset <= o
  {
  }

  lemma LeaderBelow(d: seq<Insn>, leaders: seq<nat>, m: nat, k: nat)
    requires m <= |leaders| && k < |leaders| && forall o: nat :: o in leaders ==> Decoded(d, o)
    requires forall k: nat :: m <= k < |leaders| ==> Beyond(d, |d|, leaders[k])
    ensures k < m
  {
    assert leaders[k] in leaders;
  }

  lemma NoneBeyond(d: seq<Insn>, leaders: seq<nat>, m: nat)
    requires m <= |leaders| && forall o: nat :: o in leaders ==> Decoded(d, o)
    requires forall k: nat :: m <= k < |leaders| ==> Beyond(d, |d|, leaders[k])
    ensures m == |leaders|
  {
    hide Decoded, Beyond;
    if leaders != [] {
      LeaderBelow(d, leaders, m, |leaders| - 1);
    }
  }

  lemma StartsExist(d: seq<Insn>, leaders: seq<nat>) returns (starts: seq<nat>)
    requires Sorted(d) && d != [] && Ascending(leaders)
    requires forall o: nat :: o in leaders <==> IsLeader(d, o)
    ensures IsStarts(d, leaders, starts)
  {
    starts := StartsUpTo(d, leaders, |d|);
    StartsMatch(d, leaders, |d|);
    assert Decoded(d, d[0].offset);
    assert IsLeader(d, d[0].offset);
    assert 0 in starts;
    NoneBeyond(d, leaders, |starts|);
    assert exists k: nat :: k < |starts| && starts[k] == 0;
  }

  // ------------------------------------------------------------ filling the blocks

  /** Blocks before `cur` are complete, later ones untouched, and `cur` holds the code up to instruction `n`. */
  ghost predicate Filling(d: seq<Insn>, leaders: seq<nat>, starts: seq<nat>, blocks: seq<Block>, cur: nat, n: nat) {
    && |blocks| == |starts| && cur < |starts|
    && (forall k: nat :: k < |blocks| ==> blocks[k].id == k && blocks[k].params == [])
    && (forall k: nat :: k < |starts| ==> starts[k] < EndOf(d, starts, k) <= |d|)
    && (forall k: nat :: k < cur ==> IsBlock(d, leaders, starts, k, blocks[k]))
    && (forall k: nat :: cur < k < |blocks| ==> blocks[k].insts == [])
    && starts[cur] <= n <= EndOf(d, starts, cur)
    && blocks[cur].insts == Concat(d[starts[cur]..n])
    && (n == EndOf(d, starts, cur) ==> IsBlock(d, leaders, starts, cur, blocks[cur]))
  }

  /** Every instruction seen so far that ends a block has had its branches resolved. */
  ghost predicate Resolved(d: seq<Insn>, n: nat) {
    forall i: nat :: i < n && i < |d| && FallsThrough(d[i]) ==> Decoded(d, d[i].next)
  }

  lemma EndsInOrder(d: seq<Insn>, leaders: seq<nat>, starts: seq<nat>)
    requires IsStarts(d, leaders, starts)
    ensures forall k: nat :: k < |starts| ==> starts[k] < EndOf(d, starts, k) <= |d|
  {
  }

  /** The block being filled when instruction `n` is reached: the next one just when `n` leads. */
  lemma CurrentBlock(d: seq<Insn>, leaders: seq<nat>, starts: seq<nat>, cur: nat, n: nat)
    requires Sorted(d) && IsStarts(d, leaders, starts) && cur < |starts| && n < |d|
    requires starts[cur] <= n <= EndOf(d, starts, cur)
    ensures cur + 1 < |starts| ==> (leaders[cur + 1] <= d[n].offset <==> starts[cur + 1] == n)
    ensures cur + 2 < |starts| && starts[cur + 1] == n ==> d[n].offset < leaders[cur + 2]
  {
    if cur + 1 < |starts| {
      if n < starts[cur + 1] {
        OffsetsDistinct(d, n, starts[cur + 1]);
      }
      if cur + 2 < |starts| {
        OffsetsDistinct(d, starts[cur + 1], starts[cur + 2]);
      }
    }
  }

  /** Instruction `n` ends its block when it is the last before a leader, and then only its terminator counts. */
  lemma LastEnds(d: seq<Insn>, leaders: seq<nat>, starts: seq<nat>, blockOf: BlockOf, cur: nat, n: nat)
    requires Sorted(d) && IsStarts(d, leaders, starts) && Numbers(leaders, blockOf) && cur < |starts| && n < |d|
    requires starts[cur] <= n && n + 1 == EndOf(d, starts, cur)
    ensures !Decoded(d, d[n].next) || d[n].next in blockOf
  {
    if Decoded(d, d[n].next) {
      var i: nat :| i < |d| && d[i].offset == d[n].next;
      AfterNext(d, n, i);
      assert i in starts;
      assert cur + 1 < |starts| && starts[cur + 1] == i;
      assert leaders[cur + 1] == d[n].next;
    }
  }

  /** The only instruction that can start where `n` ends is the one right after it. */
  lemma AfterNext(d: seq<Insn>, n: nat, i: nat)
    requires Sorted(d) && n < |d| && i < |d| && d[i].offset == d[n].next
    ensures i == n + 1
  {
    SortedOffsets(d);
    assert n + 1 < |d| ==> d[n].next <= d[n + 1].offset;
  }

  lemma SortedOffsets(d: seq<Insn>)
    requires Sorted(d)
    ensures forall i: nat, j: nat :: i < j < |d| ==> d[i].offset < d[j].offset
  {
    forall i: nat, j: nat | i < j < |d| ensures d[i].offset < d[j].offset {
      OffsetsDistinct(d, i, j);
    }
  }

  /** A terminator is found exactly when the instructions it needs are decoded. */
  lemma EndResolves(d: seq<Insn>, leaders: seq<nat>, starts: seq<nat>, blockOf: BlockOf, n: nat)
    requires IsStarts(d, leaders, starts) && Numbers(leaders, blockOf) && n < |d| && TargetsDecoded(d)
    requires !Decoded(d, d[n].next) || d[n].next in blockOf
    requires forall o: nat :: o in leaders <==> IsLeader(d, o)
    ensures TerminatorFor(d[n], blockOf).Some? <==> (FallsThrough(d[n]) ==> Decoded(d, d[n].next))
  {
    TerminatorRight(d[n], leaders, blockOf);
    if Branches(d[n]) {
      assert LeadsTo(d[n], d[n].ctrl.target);
      assert IsLeader(d, d[n].ctrl.target);
    }
    if d[n].next in blockOf {
      assert Lists(leaders, d[n].next, blockOf[d[n].next]);
      assert d[n].next in leaders;
    }
    if d[n].next in leaders {
      assert IsLeader(d, d[n].next);
    }
  }

  lemma FillStart(d: seq<Insn>, leaders: seq<nat>, starts: seq<nat>, blocks: seq<Block>)
    requires IsStarts(d, leaders, starts) && |blocks| == |starts|
    requires forall k: nat :: k < |blocks| ==> blocks[k] == Block(k, [], [], Return)
    ensures Filling(d, leaders, starts, blocks, 0, 0)
  {
    hide IsStarts, EndOf, IsBlock;
    EndsInOrder(d, leaders, starts);
    StartsSize(d, leaders, starts);
    assert d[0..0] == [];
  }

  /** Moving on to the next block when its leader is reached. */
  lemma FillNext(d: seq<Insn>, leaders: seq<nat>, starts: seq<nat>, blocks: seq<Block>, cur: nat, n: nat)
    requires Filling(d, leaders, starts, blocks, cur, n) && cur + 1 < |starts| && starts[cur + 1] == n
    ensures Filling(d, leaders, starts, blocks, cur + 1, n) && n < EndOf(d, starts, cur + 1)
  {
    assert d[n..n] == [];
    hide IsBlock;
  }

  /** Adding one instruction, with the terminator set if it ends the block. */
  lemma FillStep(d: seq<Insn>, leaders: seq<nat>, starts: seq<nat>, blocks: seq<Block>, cur: nat, n: nat, t: Terminator)
    requires Filling(d, leaders, starts, blocks, cur, n) && n < EndOf(d, starts, cur)
    requires n + 1 == EndOf(d, starts, cur) ==> Terminates(d[n], leaders, t)
    ensures Filling(d, leaders, starts, blocks[cur := blocks[cur].(insts := blocks[cur].insts + d[n].insts, term := t)],
            cur, n + 1)
  {
    assert d[starts[cur]..n + 1] == d[starts[cur]..n] + [d[n]];
    ConcatSnoc(d[starts[cur]..n], d[n]);
    var blocks' := blocks[cur := blocks[cur].(insts := blocks[cur].insts + d[n].insts, term := t)];
    forall k: nat | k < cur ensures IsBlock(d, leaders, starts, k, blocks'[k]) {
      assert blocks'[k] == blocks[k];
    }
    hide Terminates, Concat;
  }

  lemma FillDone(d: seq<Insn>, leaders: seq<nat>, starts: seq<nat>, blocks: seq<Block>, cur: nat)
    requires IsStarts(d, leaders, starts) && Filling(d, leaders, starts, blocks, cur, |d|)
    ensures IsAssembly(d, leaders, starts, blocks)
  {
    LastBlock(d, leaders, starts, blocks, cur);
    hide IsBlock, EndOf;
  }

  lemma LastBlock(d: seq<Insn>, leaders: seq<nat>, starts: seq<nat>, blocks: seq<Block>, cur: nat)
    requires IsStarts(d, leaders, starts) && Filling(d, leaders, starts, blocks, cur, |d|)
    ensures cur + 1 == |starts| && EndOf(d, starts, cur) == |d|
  {
    FillingRange(d, leaders, starts, blocks, cur, |d|);
    hide Filling;
    var last := |starts| - 1;
    assert starts[last] < |d|;
  }

  /** Assemble the blocks; a branch or fall-through to something that was not decoded is refused. */
  method BuildBlocks(d: seq<Insn>) returns (r: Result<seq<Block>, BuildError>)
    requires Sorted(d)
    ensures r.Success? <==> TargetsDecoded(d) && FallsDecoded(d)
    ensures r.Failure? ==> r.error == if TargetsDecoded(d) then Dangling else NotBoundary
    ensures r.Success? ==> if d == [] then r.value == [Block(0, [], [], Return)] else Assembled(d, r.value)
  {
    if d == [] {
      return Success([Block(0, [], [], Return)]);
    }
    var offsets := OffsetsOf(d);
    var found := LeadersOf(d, offsets);
    if found.None? {
      return Failure(NotBoundary);
    }
    var leaders := InOrder(set o | o in found.value && o in offsets);
    LeadersExact(d, found.value, offsets, leaders);
    var blockOf := NumberLeaders(leaders);
    r := FillBlocks(d, offsets, leaders, blockOf);
  }

  lemma LeadersExact(d: seq<Insn>, found: set<nat>, offsets: set<nat>, leaders: seq<nat>)
    requires d != [] && forall o: nat :: o in offsets <==> Decoded(d, o)
    requires forall o: nat :: o in found <==> o == d[0].offset || exists j: nat :: j < |d| && LeadsTo(d[j], o)
    requires forall o: nat :: o in leaders <==> o in found && o in offsets
    ensures forall o: nat :: o in leaders <==> IsLeader(d, o)
  {
    hide LeadsTo, Decoded;
  }

  /** Give every instruction to the block of the last leader at or before it. */
  method FillBlocks(d: seq<Insn>, offsets: set<nat>, leaders: seq<nat>, blockOf: BlockOf)
    returns (r: Result<seq<Block>, BuildError>)
    requires Sorted(d) && d != [] && TargetsDecoded(d) && (forall o: nat :: o in offsets <==> Decoded(d, o))
    requires Ascending(leaders) && Numbers(leaders, blockOf) && forall o: nat :: o in leaders <==> IsLeader(d, o)
    ensures r.Success? <==> FallsDecoded(d)
    ensures r.Failure? ==> r.error == Dangling
    ensures r.Success? ==> Assembled(d, r.value)
  {
    ghost var starts := StartsExist(d, leaders);
    StartsSize(d, leaders, starts);
    var blocks := seq(|leaders|, k requires 0 <= k < |leaders| => Block(k, [], [], Return));
    FillStart(d, leaders, starts, blocks);
    hide Sorted, Decoded, TargetsDecoded, Numbers, IsLeader, IsStarts, Filling, Ascending, TerminatorFor, Terminates,
      Resolved;
    ResolvedNone(d);
    var cur: nat := 0;
    for n := 0 to |d|
      invariant Filling(d, leaders, starts, blocks, cur, n) && cur < |starts| && |blocks| == |starts|
      invariant Resolved(d, n)
    {
      cur := AdvanceTo(d, leaders, starts, blocks, cur, n);
      var filled := FillOne(d, offsets, leaders, starts, blockOf, blocks, cur, n);
      if filled.None? {
        MissingFall(d, n);
        return Failure(Dangling);
      }
      blocks := filled.value;
      FillFacts(d, leaders, starts, blocks, cur, n + 1);
      ResolvedNext(d, n);
    }
    FillDone(d, leaders, starts, blocks, cur);
    ResolvedAll(d);
    r := Success(blocks);
  }

  /** Append instruction `n` to block `cur`, setting the terminator if it ends the block. */
  method FillOne(d: seq<Insn>, offsets: set<nat>, leaders: seq<nat>, ghost starts: seq<nat>, blockOf: BlockOf,
                 blocks: seq<Block>, cur: nat, n: nat)
    returns (r: Option<seq<Block>>)
    requires Sorted(d) && TargetsDecoded(d) && (forall o: nat :: o in offsets <==> Decoded(d, o)) && n < |d|
    requires IsStarts(d, leaders, starts) && Numbers(leaders, blockOf)
    requires forall o: nat :: o in leaders <==> IsLeader(d, o)
    requires Filling(d, leaders, starts, blocks, cur, n) && cur < |starts| == |blocks| && n < EndOf(d, starts, cur)
    ensures r.Some? <==> (FallsThrough(d[n]) ==> Decoded(d, d[n].next))
    ensures r.Some? ==> Filling(d, leaders, starts, r.value, cur, n + 1)
  {
    FillingRange(d, leaders, starts, blocks, cur, n);
    var x := d[n];
    if n + 1 == EndOf(d, starts, cur) {
      LastEnds(d, leaders, starts, blockOf, cur, n);
    }
    if x.next !in offsets || x.next in blockOf {
      EndResolves(d, leaders, starts, blockOf, n);
      TerminatorRight(x, leaders, blockOf);
    }
    hide Sorted, Decoded, TargetsDecoded, Numbers, IsLeader, IsStarts, Filling, TerminatorFor, Terminates;
    var b := blocks[cur].(insts := blocks[cur].insts + x.insts);
    if x.next !in offsets || x.next in blockOf {
      var t := TerminatorFor(x, blockOf);
      if t.None? {
        return None;
      }
      b := b.(term := t.value);
    }
    FillStep(d, leaders, starts, blocks, cur, n, b.term);
    r := Some(blocks[cur := b]);
  }

  lemma FillFacts(d: seq<Insn>, leaders: seq<nat>, starts: seq<nat>, blocks: seq<Block>, cur: nat, n: nat)
    requires Filling(d, leaders, starts, blocks, cur, n)
    ensures |blocks| == |starts| && cur < |blocks|
  {
  }

  lemma StartsSize(d: seq<Insn>, leaders: seq<nat>, starts: seq<nat>)
    requires IsStarts(d, leaders, starts)
    ensures |starts| == |leaders| > 0 && starts[0] == 0
  {
  }

  lemma ResolvedNone(d: seq<Insn>)
    ensures Resolved(d, 0)
  {
  }

  lemma ResolvedNext(d: seq<Insn>, n: nat)
    requires Resolved(d, n) && n < |d| && (FallsThrough(d[n]) ==> Decoded(d, d[n].next))
    ensures Resolved(d, n + 1)
  {
    hide Decoded;
  }

  lemma ResolvedAll(d: seq<Insn>)
    requires Resolved(d, |d|)
    ensures FallsDecoded(d)
  {
    hide Decoded;
  }

  lemma MissingFall(d: seq<Insn>, n: nat)
    requires n < |d| && FallsThrough(d[n]) && !Decoded(d, d[n].next)
    ensures !FallsDecoded(d)
  {
    hide Decoded;
  }

  /** Skip to the block that instruction `n` belongs to. */
  method AdvanceTo(d: seq<Insn>, leaders: seq<nat>, ghost starts: seq<nat>, ghost blocks: seq<Block>, from: nat, n: nat)
    returns (cur: nat)
    requires Sorted(d) && IsStarts(d, leaders, starts) && n < |d| && Filling(d, leaders, starts, blocks, from, n)
    ensures Filling(d, leaders, starts, blocks, cur, n) && cur < |starts| == |blocks| && n < EndOf(d, starts, cur)
  {
    cur := from;
    StartsSize(d, leaders, starts);
    FillingRange(d, leaders, starts, blocks, cur, n);
    CurrentBlock(d, leaders, starts, cur, n);
    hide Sorted, IsStarts, Filling;
    while cur + 1 < |leaders| && leaders[cur + 1] <= d[n].offset
      invariant Filling(d, leaders, starts, blocks, cur, n) && cur < |starts|
      invariant starts[cur] <= n <= EndOf(d, starts, cur)
      invariant cur + 1 < |starts| ==> (leaders[cur + 1] <= d[n].offset <==> starts[cur + 1] == n)
    {
      FillNext(d, leaders, starts, blocks, cur, n);
      cur := cur + 1;
      FillingRange(d, leaders, starts, blocks, cur, n);
      CurrentBlock(d, leaders, starts, cur, n);
    }
  }

  lemma FillingRange(d: seq<Insn>, leaders: seq<nat>, starts: seq<nat>, blocks: seq<Block>, cur: nat, n: nat)
    requires Filling(d, leaders, starts, blocks, cur, n)
    ensures cur < |starts| == |blocks| && starts[cur] <= n <= EndOf(d, starts, cur) <= |d|
  {
  }
}
