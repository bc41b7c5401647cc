/**
 Reading back what was written restores the aggregate, whatever order its sets and maps were printed in, exactly
 when the aggregate is one a scan can hold (crates/cli/src/scan_dir.rs:159-274).
 */
module CheckpointRoundTrip {
  import opened Wrappers
  import opened CheckpointText
  import opened Checkpoint

  // ------------------------------------------------------------ aggregates a scan can hold

  /** All counters are 64-bit. */
  ghost predicate Counts64(a: Agg) {
    && a.pass < TWO_64 && a.fail < TWO_64 && a.unknown < TWO_64 && a.dropped < TWO_64 && a.errored < TWO_64
    && a.distinctResiduals < TWO_64 && a.sound < TWO_64 && a.underAssumption < TWO_64 && a.peak < TWO_64
    && (forall r :: r in a.residuals ==> a.residuals[r] < TWO_64)
    && (forall r :: r in a.assumptionFns ==> a.assumptionFns[r] < TWO_64)
    && (forall r :: r in a.soleFns ==> a.soleFns[r] < TWO_64)
  }

  predicate CleanFinding(f: Finding) {
    Clean(f.file) && Clean(f.fn) && Clean(f.property) && Clean(f.witnessed)
  }

  /** No name contains a separator. */
  ghost predicate CleanNames(a: Agg) {
    && (forall x :: x in a.done ==> Clean(x))
    && (forall f :: f in a.findings ==> CleanFinding(f))
    && (forall r :: r in a.residuals ==> Clean(r))
    && (forall r :: r in a.assumptionFns ==> Clean(r))
  }

  ghost predicate DistinctKeys(fs: seq<Finding>) {
    forall i, j :: 0 <= i < j < |fs| ==> FindingKey(fs[i]) != FindingKey(fs[j])
  }

  ghost predicate KeysAre(fs: seq<Finding>, keys: set<Key>) {
    forall k :: k in keys <==> exists i :: 0 <= i < |fs| && FindingKey(fs[i]) == k
  }

  /** Findings deduplicated by key; sole assumptions counted, positively, among the assumptions. */
  ghost predicate Consistent(a: Agg) {
    && DistinctKeys(a.findings) && KeysAre(a.findings, a.seenFind)
    && forall r :: r in a.soleFns ==> r in a.assumptionFns && a.soleFns[r] > 0
  }

  // ------------------------------------------------------------ records

  function ReadRecords(a: Agg, rs: seq<seq<string>>): Agg
    requires forall i :: 0 <= i < |rs| ==> rs[i] != []
  {
    if rs == [] then a else ReadFields(ReadRecords(a, rs[..|rs| - 1]), rs[|rs| - 1])
  }

  predicate CleanRecords(rs: seq<seq<string>>) {
    forall i :: 0 <= i < |rs| ==> rs[i] != [] && CleanAll(rs[i])
  }

  /** Reading lines is reading the records they were joined from. */
  lemma {:induction false} LinesAreRecords(a: Agg, rs: seq<seq<string>>)
    requires CleanRecords(rs)
    ensures ReadLines(a, JoinAll(rs)) == ReadRecords(a, rs)
  {
    hide ReadFields;
    if rs != [] {
      var n := |rs| - 1;
      LinesAreRecords(a, rs[..n]);
      assert JoinAll(rs)[..n] == JoinAll(rs[..n]);
      SplitJoined(rs[n]);
    }
  }

  lemma {:induction false} RecordsAppend(a: Agg, xs: seq<seq<string>>, ys: seq<seq<string>>)
    requires CleanRecords(xs) && CleanRecords(ys)
    ensures CleanRecords(xs + ys) && ReadRecords(a, xs + ys) == ReadRecords(ReadRecords(a, xs), ys)
  {
    hide ReadFields, CleanAll;
    if ys == [] {
      assert xs + ys == xs;
    } else {
      var n := |ys| - 1;
      RecordsAppend(a, xs, ys[..n]);
      assert (xs + ys)[..|xs| + n] == xs + ys[..n];
    }
  }

  // ------------------------------------------------------------ every record is clean

  lemma DoneClean(q: seq<string>)
    ensures CleanRecords(DoneLines(q))
  {
    forall i | 0 <= i < |q| ensures CleanAll(DoneLine(q[i])) {
      FieldKeepsExactly(q[i]);
    }
  }

  lemma FindingsClean(fs: seq<Finding>)
    ensures CleanRecords(FindingLines(fs))
  {
    forall i | 0 <= i < |fs| ensures CleanAll(FindingLine(fs[i])) {
      FieldKeepsExactly(fs[i].file);
      FieldKeepsExactly(fs[i].fn);
      FieldKeepsExactly(fs[i].property);
      FieldKeepsExactly(fs[i].witnessed);
    }
  }

  lemma CountsClean(a: Agg)
    requires Counts64(a)
    ensures CleanRecords([CountsLine(a)]) && CleanRecords(TotalsLines(a))
  {
    hide ToDec, ParseU64, Clean, Counts64;
    TagsClean();
    CountsParse(a);
  }

  lemma TagsClean()
    ensures Clean("C") && Clean("D") && Clean("F") && Clean("R") && Clean("M") && Clean("S") && Clean("P") && Clean("A")
  {
  }

  /** Every printed counter reads back. */
  lemma CountsParse(a: Agg)
    requires Counts64(a)
    ensures Printed(a.pass) && Printed(a.fail) && Printed(a.unknown) && Printed(a.dropped) && Printed(a.errored)
    ensures Printed(a.distinctResiduals) && Printed(a.sound) && Printed(a.underAssumption) && Printed(a.peak)
  {
    hide ToDec, ParseU64, Clean;
    ParsePrinted(a.pass);
    ParsePrinted(a.fail);
    ParsePrinted(a.unknown);
    ParsePrinted(a.dropped);
    ParsePrinted(a.errored);
    ParsePrinted(a.distinctResiduals);
    ParsePrinted(a.sound);
    ParsePrinted(a.underAssumption);
    ParsePrinted(a.peak);
  }

  ghost predicate Printed(n: nat) {
    ParseU64(ToDec(n)) == Some(n) && Clean(ToDec(n))
  }

  lemma ResidualsClean(a: Agg, q: seq<string>)
    requires Counts64(a) && forall r :: r in q ==> r in a.residuals
    ensures CleanRecords(ResidualLines(a, q))
  {
    forall i | 0 <= i < |q| ensures CleanAll(ResidualLine(a, q[i])) {
      FieldKeepsExactly(q[i]);
      ParsePrinted(a.residuals[q[i]]);
      hide ToDec, ParseU64, CkptField;
    }
  }

  lemma AssumptionsClean(a: Agg, q: seq<string>)
    requires Counts64(a) && forall r :: r in q ==> r in a.assumptionFns
    ensures CleanRecords(AssumptionLines(a, q))
  {
    forall i | 0 <= i < |q| ensures CleanAll(AssumptionLine(a, q[i])) {
      FieldKeepsExactly(q[i]);
      ParsePrinted(a.assumptionFns[q[i]]);
      ParsePrinted(Sole(a, q[i]));
      hide ToDec, ParseU64, CkptField;
    }
  }

  lemma RecordsClean(a: Agg, o: Orders)
    requires Counts64(a) && IsOrder(a, o)
    ensures CleanRecords(Records(a, o))
  {
    CountsClean(a);
    DoneClean(o.done);
    FindingsClean(a.findings);
    ResidualsClean(a, o.residuals);
    AssumptionsClean(a, o.assumptions);
    hide CleanAll, Counts64, CountsLine, DoneLines, FindingLines, ResidualLines, TotalsLines, AssumptionLines;
  }

  // ------------------------------------------------------------ reading each table

  ghost function Elems(q: seq<string>): set<string> {
    set x | x in q
  }

  lemma {:induction false} DoneRead(b: Agg, q: seq<string>)
    requires forall x :: x in q ==> Clean(x)
    ensures CleanRecords(DoneLines(q)) && ReadRecords(b, DoneLines(q)) == b.(done := b.done + Elems(q))
  {
    DoneClean(q);
    if q == [] {
      assert b.done + Elems(q) == b.done;
    } else {
      var n := |q| - 1;
      DoneRead(b, q[..n]);
      assert DoneLines(q)[..n] == DoneLines(q[..n]);
      assert q[n] in q;
      FieldKeepsExactly(q[n]);
      assert Elems(q) == Elems(q[..n]) + {q[n]};
      hide CkptField;
    }
  }

  ghost function Keys(fs: seq<Finding>): set<Key> {
    set i | 0 <= i < |fs| :: FindingKey(fs[i])
  }

  lemma {:induction false} FindingsRead(b: Agg, fs: seq<Finding>)
    requires DistinctKeys(fs) && (forall f :: f in fs ==> CleanFinding(f)) && b.findings == [] && b.seenFind == {}
    ensures CleanRecords(FindingLines(fs))
    ensures ReadRecords(b, FindingLines(fs)) == b.(findings := fs, seenFind := Keys(fs))
  {
    FindingsClean(fs);
    if fs != [] {
      var n := |fs| - 1;
      FindingsRead(b, fs[..n]);
      assert FindingLines(fs)[..n] == FindingLines(fs[..n]);
      FindingRead(b, fs, ReadRecords(b, FindingLines(fs[..n])));
      hide ReadFields, FindingLine;
    }
  }

  lemma FindingRead(b: Agg, fs: seq<Finding>, c: Agg)
    requires fs != [] && DistinctKeys(fs) && forall f :: f in fs ==> CleanFinding(f)
    requires c == b.(findings := fs[..|fs| - 1], seenFind := Keys(fs[..|fs| - 1]))
    ensures ReadFields(c, FindingLine(fs[|fs| - 1])) == b.(findings := fs, seenFind := Keys(fs))
  {
    var n := |fs| - 1;
    var f := fs[n];
    assert f in fs;
    FieldKeepsExactly(f.file);
    FieldKeepsExactly(f.fn);
    FieldKeepsExactly(f.property);
    FieldKeepsExactly(f.witnessed);
    assert FindingLine(f) == ["F", f.file, f.fn, f.property, f.witnessed];
    hide CkptField, Clean;
    assert FindingKey(f) !in Keys(fs[..n]);
    assert Keys(fs) == Keys(fs[..n]) + {FindingKey(f)} by {
      KeysSnoc(fs);
    }
    assert fs == fs[..n] + [f];
  }

  lemma KeysSnoc(fs: seq<Finding>)
    requires fs != []
    ensures Keys(fs) == Keys(fs[..|fs| - 1]) + {FindingKey(fs[|fs| - 1])}
  {
    var n := |fs| - 1;
    forall k | k in Keys(fs) ensures k in Keys(fs[..n]) + {FindingKey(fs[n])} {
      var i :| 0 <= i < |fs| && FindingKey(fs[i]) == k;
      assert i < n ==> fs[..n][i] == fs[i];
    }
    forall k | k in Keys(fs[..n]) ensures k in Keys(fs) {
      var i :| 0 <= i < n && FindingKey(fs[..n][i]) == k;
      assert fs[..n][i] == fs[i];
    }
  }

  ghost function Restrict(m: map<string, nat>, q: seq<string>): map<string, nat> {
    map r | r in m && r in q :: m[r]
  }

  lemma RestrictSnoc(m: map<string, nat>, q: seq<string>)
    requires q != [] && (forall i, j :: 0 <= i < j < |q| ==> q[i] != q[j])
    ensures var r := q[|q| - 1];
            && r !in Restrict(m, q[..|q| - 1])
            && (r in m ==> Restrict(m, q) == Restrict(m, q[..|q| - 1])[r := m[r]])
            && (r !in m ==> Restrict(m, q) == Restrict(m, q[..|q| - 1]))
  {
    var n := |q| - 1;
    assert q == q[..n] + [q[n]];
    assert forall x :: x in q <==> x in q[..n] || x == q[n];
  }

  lemma {:induction false} ResidualsRead(a: Agg, b: Agg, q: seq<string>)
    requires Counts64(a) && (forall r :: r in q ==> r in a.residuals && Clean(r)) && b.residuals == map[]
    requires forall i, j :: 0 <= i < j < |q| ==> q[i] != q[j]
    ensures CleanRecords(ResidualLines(a, q))
    ensures ReadRecords(b, ResidualLines(a, q)) == b.(residuals := Restrict(a.residuals, q))
  {
    ResidualsClean(a, q);
    if q == [] {
      assert Restrict(a.residuals, q) == map[];
    } else {
      var n := |q| - 1;
      ResidualsRead(a, b, q[..n]);
      assert ResidualLines(a, q)[..n] == ResidualLines(a, q[..n]);
      assert q[n] in q;
      ResidualRead(a, ReadRecords(b, ResidualLines(a, q[..n])), q);
      hide ReadFields, Restrict, Counts64, ResidualLine;
    }
  }

  lemma ResidualRead(a: Agg, c: Agg, q: seq<string>)
    requires Counts64(a) && q != [] && q[|q| - 1] in a.residuals && Clean(q[|q| - 1])
    requires forall i, j :: 0 <= i < j < |q| ==> q[i] != q[j]
    requires c.residuals == Restrict(a.residuals, q[..|q| - 1])
    ensures ReadFields(c, ResidualLine(a, q[|q| - 1])) == c.(residuals := Restrict(a.residuals, q))
  {
    var id := q[|q| - 1];
    ParsePrinted(a.residuals[id]);
    FieldKeepsExactly(id);
    RestrictSnoc(a.residuals, q);
    hide CkptField, ToDec, ParseU64, Restrict, Counts64, Clean;
    var fields := ResidualLine(a, id);
    assert fields == ["R", ToDec(a.residuals[id]), id];
    assert NumberAt(fields, 1) == Some(a.residuals[id]);
  }

  lemma {:induction false} AssumptionsRead(a: Agg, b: Agg, q: seq<string>)
    requires Counts64(a) && (forall r :: r in q ==> r in a.assumptionFns && Clean(r))
    requires b.assumptionFns == map[] && b.soleFns == map[] && forall r :: r in a.soleFns ==> a.soleFns[r] > 0
    requires forall i, j :: 0 <= i < j < |q| ==> q[i] != q[j]
    ensures CleanRecords(AssumptionLines(a, q))
    ensures ReadRecords(b, AssumptionLines(a, q)) ==
            b.(assumptionFns := Restrict(a.assumptionFns, q), soleFns := Restrict(a.soleFns, q))
  {
    AssumptionsClean(a, q);
    if q == [] {
      assert Restrict(a.assumptionFns, q) == map[] && Restrict(a.soleFns, q) == map[];
    } else {
      var n := |q| - 1;
      AssumptionsRead(a, b, q[..n]);
      assert AssumptionLines(a, q)[..n] == AssumptionLines(a, q[..n]);
      assert q[n] in q;
      AssumptionRead(a, ReadRecords(b, AssumptionLines(a, q[..n])), q);
      hide ReadFields, Restrict, Counts64, AssumptionLine;
    }
  }

  lemma AssumptionRead(a: Agg, c: Agg, q: seq<string>)
    requires Counts64(a) && q != [] && q[|q| - 1] in a.assumptionFns && Clean(q[|q| - 1])
    requires (forall r :: r in a.soleFns ==> a.soleFns[r] > 0) && (forall i, j :: 0 <= i < j < |q| ==> q[i] != q[j])
    requires c.assumptionFns == Restrict(a.assumptionFns, q[..|q| - 1])
    requires c.soleFns == Restrict(a.soleFns, q[..|q| - 1])
    ensures ReadFields(c, AssumptionLine(a, q[|q| - 1])) ==
            c.(assumptionFns := Restrict(a.assumptionFns, q), soleFns := Restrict(a.soleFns, q))
  {
    var id := q[|q| - 1];
    ParsePrinted(a.assumptionFns[id]);
    ParsePrinted(Sole(a, id));
    FieldKeepsExactly(id);
    RestrictSnoc(a.assumptionFns, q);
    RestrictSnoc(a.soleFns, q);
    hide CkptField, ToDec, ParseU64, Restrict, Counts64, Clean;
    var fields := AssumptionLine(a, id);
    assert fields == ["A", ToDec(a.assumptionFns[id]), ToDec(Sole(a, id)), id];
    assert NumberAt(fields, 1) == Some(a.assumptionFns[id]) && NumberAt(fields, 2) == Some(Sole(a, id));
  }

  lemma CountsRead(a: Agg)
    requires Counts64(a)
    ensures CleanRecords([CountsLine(a)])
    ensures ReadRecords(EMPTY, [CountsLine(a)]) ==
            EMPTY.(pass := a.pass, fail := a.fail, unknown := a.unknown, dropped := a.dropped, errored := a.errored)
  {
    CountsClean(a);
    CountsParse(a);
    hide ToDec, ParseU64, Clean, Counts64;
    assert [CountsLine(a)][..0] == [];
    assert ReadRecords(EMPTY, [CountsLine(a)]) == ReadFields(ReadRecords(EMPTY, []), CountsLine(a));
  }

  lemma TotalsRead(a: Agg, b: Agg)
    requires Counts64(a) && b.distinctResiduals == b.peak == 0
    ensures CleanRecords(TotalsLines(a))
    ensures ReadRecords(b, TotalsLines(a)) ==
            b.(distinctResiduals := a.distinctResiduals, sound := a.sound, underAssumption := a.underAssumption,
               peak := a.peak)
  {
    CountsClean(a);
    CountsParse(a);
    hide ToDec, ParseU64, Clean, Counts64;
    var m, s, p := ["M", ToDec(a.distinctResiduals)], ["S", ToDec(a.sound), ToDec(a.underAssumption)],
        ["P", ToDec(a.peak)];
    var ls := TotalsLines(a);
    assert ls == [m, s, p] && ls[..2] == [m, s] && ls[..2][..1] == [m] && ls[..2][..1][..0] == [];
    var b1, b2 := ReadFields(b, m), ReadFields(ReadFields(b, m), s);
    assert ReadRecords(b, [m]) == b1 by {
      assert [m][..0] == [];
    }
    assert ReadRecords(b, [m, s]) == b2 by {
      assert [m, s][..1] == [m];
    }
    assert ReadRecords(b, ls) == ReadFields(b2, p);
  }

  // ------------------------------------------------------------ the round trip

  lemma RestrictAll(m: map<string, nat>, q: seq<string>, keys: set<string>)
    requires m.Keys <= keys && forall x :: x in q <==> x in keys
    ensures Restrict(m, q) == m
  {
    assert forall r :: r in m ==> r in q;
  }

  lemma ReadsRendered(a: Agg, o: Orders)
    requires Counts64(a) && IsOrder(a, o)
    ensures CleanRecords(Records(a, o)) && Read(Render(a, o)) == Some(ReadRecords(EMPTY, Records(a, o)))
  {
    RecordsClean(a, o);
    var rs := Records(a, o);
    var lines := [HEADER] + JoinAll(rs);
    hide Records, ReadFields, ReadRecords, ReadLines;
    forall i | 0 <= i < |lines| ensures IsLine(lines[i]) {
      if i > 0 {
        JoinedLine(rs[i - 1]);
      }
    }
    hide IsLine, CleanAll, Lines, Unlines, Join;
    LinesBack(lines);
    assert lines[1..] == JoinAll(rs);
    LinesAreRecords(EMPTY, rs);
  }

  /** Consistent, clean aggregates come back whole. */
  lemma RoundTrip(a: Agg, o: Orders)
    requires Counts64(a) && CleanNames(a) && Consistent(a) && IsOrder(a, o)
    ensures Read(Render(a, o)) == Some(a)
  {
    hide *;
    EmptyIs();
    ReadsRendered(a, o);
    Chain(a, o);
    CountsRead(a);
    var b0 := EMPTY.(pass := a.pass, fail := a.fail, unknown := a.unknown, dropped := a.dropped, errored := a.errored);
    SaneParts(a, o);
    DoneRead(b0, o.done);
    ElemsAre(o.done, a.done);
    assert b0.done + Elems(o.done) == a.done;
    var b1 := b0.(done := a.done);
    FindingsRead(b1, a.findings);
    var b2 := b1.(findings := a.findings, seenFind := a.seenFind);
    ResidualsRead(a, b2, o.residuals);
    RestrictAll(a.residuals, o.residuals, a.residuals.Keys);
    var b3 := b2.(residuals := a.residuals);
    TotalsRead(a, b3);
    var b4 := b3.(distinctResiduals := a.distinctResiduals, sound := a.sound, underAssumption := a.underAssumption,
                  peak := a.peak);
    AssumptionsRead(a, b4, o.assumptions);
    RestrictAll(a.assumptionFns, o.assumptions, a.assumptionFns.Keys);
    RestrictAll(a.soleFns, o.assumptions, a.assumptionFns.Keys);
  }

  lemma EmptyIs()
    ensures EMPTY == Agg(0, 0, 0, 0, 0, {}, [], {}, map[], 0, 0, 0, map[], map[], 0)
  {
  }

  lemma ElemsAre(q: seq<string>, s: set<string>)
    requires forall x :: x in q <==> x in s
    ensures Elems(q) == s
  {
  }

  /** What the hypotheses of the round trip say, table by table. */
  lemma SaneParts(a: Agg, o: Orders)
    requires CleanNames(a) && Consistent(a) && IsOrder(a, o)
    ensures (forall x :: x in o.done <==> x in a.done) && (forall x :: x in o.done ==> Clean(x))
    ensures DistinctKeys(a.findings) && (forall f :: f in a.findings ==> CleanFinding(f))
    ensures Keys(a.findings) == a.seenFind
    ensures (forall x :: x in o.residuals <==> x in a.residuals.Keys)
    ensures (forall x :: x in o.residuals ==> x in a.residuals && Clean(x))
    ensures forall i, j :: 0 <= i < j < |o.residuals| ==> o.residuals[i] != o.residuals[j]
    ensures forall x :: x in o.assumptions <==> x in a.assumptionFns.Keys
    ensures forall x :: x in o.assumptions ==> x in a.assumptionFns && Clean(x)
    ensures forall i, j :: 0 <= i < j < |o.assumptions| ==> o.assumptions[i] != o.assumptions[j]
    ensures a.soleFns.Keys <= a.assumptionFns.Keys && forall r :: r in a.soleFns ==> a.soleFns[r] > 0
  {
    hide Clean, CleanFinding;
  }

  /** Reading all records is reading the six tables one after another. */
  lemma Chain(a: Agg, o: Orders)
    requires Counts64(a) && IsOrder(a, o)
    ensures CleanRecords([CountsLine(a)]) && CleanRecords(DoneLines(o.done)) && CleanRecords(FindingLines(a.findings))
    ensures CleanRecords(ResidualLines(a, o.residuals)) && CleanRecords(TotalsLines(a))
    ensures CleanRecords(AssumptionLines(a, o.assumptions)) && CleanRecords(Records(a, o))
    ensures ReadRecords(EMPTY, Records(a, o)) ==
            ReadRecords(ReadRecords(ReadRecords(ReadRecords(ReadRecords(ReadRecords(EMPTY, [CountsLine(a)]),
              DoneLines(o.done)), FindingLines(a.findings)), ResidualLines(a, o.residuals)), TotalsLines(a)),
              AssumptionLines(a, o.assumptions))
  {
    CountsClean(a);
    DoneClean(o.done);
    FindingsClean(a.findings);
    ResidualsClean(a, o.residuals);
    AssumptionsClean(a, o.assumptions);
    hide Counts64, CleanRecords, ReadRecords, CountsLine, DoneLines, FindingLines, ResidualLines, TotalsLines,
      AssumptionLines;
    var r1 := [CountsLine(a)] + DoneLines(o.done);
    var r2 := r1 + FindingLines(a.findings);
    var r3 := r2 + ResidualLines(a, o.residuals);
    var r4 := r3 + TotalsLines(a);
    RecordsAppend(EMPTY, [CountsLine(a)], DoneLines(o.done));
    RecordsAppend(EMPTY, r1, FindingLines(a.findings));
    RecordsAppend(EMPTY, r2, ResidualLines(a, o.residuals));
    RecordsAppend(EMPTY, r3, TotalsLines(a));
    RecordsAppend(EMPTY, r4, AssumptionLines(a, o.assumptions));
  }

  // ------------------------------------------------------------ only such aggregates come back

  lemma ReadKeepsClean(a: Agg, fields: seq<string>)
    requires CleanNames(a) && fields != [] && CleanAll(fields)
    ensures CleanNames(ReadFields(a, fields))
  {
    hide ParseU64;
  }

  lemma ReadKeepsConsistent(a: Agg, fields: seq<string>)
    requires Consistent(a) && fields != []
    ensures Consistent(ReadFields(a, fields))
  {
    hide ParseU64;
    if fields[0] == "F" && |fields| > 4 {
      var f := Finding(fields[1], fields[2], fields[3], fields[4]);
      if FindingKey(f) !in a.seenFind {
        FindingAdded(a, f);
      }
    }
  }

  lemma FindingAdded(a: Agg, f: Finding)
    requires DistinctKeys(a.findings) && KeysAre(a.findings, a.seenFind) && FindingKey(f) !in a.seenFind
    ensures DistinctKeys(a.findings + [f]) && KeysAre(a.findings + [f], a.seenFind + {FindingKey(f)})
  {
    var fs := a.findings + [f];
    forall k ensures k in a.seenFind + {FindingKey(f)} <==> exists i :: 0 <= i < |fs| && FindingKey(fs[i]) == k {
      if k in a.seenFind {
        var i :| 0 <= i < |a.findings| && FindingKey(a.findings[i]) == k;
        assert fs[i] == a.findings[i];
      } else if k == FindingKey(f) {
        assert fs[|a.findings|] == f;
      }
    }
  }

  lemma {:induction false} ReadsSane(rs: seq<seq<string>>)
    requires CleanRecords(rs)
    ensures CleanNames(ReadRecords(EMPTY, rs)) && Consistent(ReadRecords(EMPTY, rs))
  {
    hide ReadFields;
    if rs != [] {
      ReadsSane(rs[..|rs| - 1]);
      ReadKeepsClean(ReadRecords(EMPTY, rs[..|rs| - 1]), rs[|rs| - 1]);
      ReadKeepsConsistent(ReadRecords(EMPTY, rs[..|rs| - 1]), rs[|rs| - 1]);
    }
  }

  /** The aggregate comes back whole exactly when its names are clean and its tables consistent. */
  lemma RoundTripExactly(a: Agg, o: Orders)
    requires Counts64(a) && IsOrder(a, o)
    ensures Read(Render(a, o)) == Some(a) <==> CleanNames(a) && Consistent(a)
  {
    hide Read, Render, CleanNames, Consistent, ReadRecords, Records;
    if CleanNames(a) && Consistent(a) {
      RoundTrip(a, o);
    }
    ReadsRendered(a, o);
    ReadsSane(Records(a, o));
  }

  /** Write a checkpoint and read it back. */
  method WriteThenRead(a: Agg) returns (r: Option<Agg>)
    requires Counts64(a)
    ensures r == Some(a) <==> CleanNames(a) && Consistent(a)
  {
    hide Read, Render, IsOrder, CleanNames, Consistent, Counts64;
    var text := WriteCheckpoint(a);
    ghost var o :| IsOrder(a, o) && text == Render(a, o);
    RoundTripExactly(a, o);
    r := ReadCheckpoint(text);
  }
}
