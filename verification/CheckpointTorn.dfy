/**
 A checkpoint that was cut short: every complete record is loaded, and what
 becomes of the record the cut falls into (crates/cli/src/scan_dir.rs:192-274).
 */
module CheckpointTorn {
  import opened Wrappers
  import opened CheckpointText
  import opened Checkpoint
  import opened CheckpointRoundTrip

  // ------------------------------------------------------------ where a text is cut

  lemma {:induction false} CutText(ls: seq<string>, t: string) returns (k: nat, p: string)
    requires t <= Unlines(ls)
    ensures k <= |ls| && t == Unlines(ls[..k]) + p
    ensures if k < |ls| then p <= ls[k] else p == ""
  {
    if ls == [] {
      k, p := 0, "";
    } else if |t| <= |ls[0]| {
      k, p := 0, t;
      assert Unlines(ls)[..|ls[0]|] == ls[0];
    } else {
      var rest := t[|ls[0]| + 1..];
      var all := Unlines(ls);
      assert all[..|ls[0]| + 1] == ls[0] + "\n" && all[|ls[0]| + 1..] == Unlines(ls[1..]);
      assert rest <= Unlines(ls[1..]) && t == ls[0] + "\n" + rest;
      k, p := CutText(ls[1..], rest);
      k := k + 1;
      assert ls[..k][1..] == ls[1..][..k - 1];
    }
  }

  lemma LineFirst(ls: seq<string>, p: string)
    requires ls != [] && AllLines(ls)
    ensures Without(ls[0], '\n') && Unlines(ls) + p == ls[0] + ['\n'] + (Unlines(ls[1..]) + p)
  {
    assert IsLine(ls[0]);
  }

  lemma {:induction false} SplitCut(ls: seq<string>, p: string)
    requires AllLines(ls) && IsLine(p)
    ensures Split(Unlines(ls) + p, '\n') == ls + [p]
  {
    if ls == [] {
      SplitPlain(p, '\n');
      assert Unlines(ls) + p == p;
    } else {
      SplitCut(ls[1..], p);
      LineFirst(ls, p);
      SplitFirst(ls[0], Unlines(ls[1..]) + p, '\n');
      hide Split, Unlines, IsLine;
      assert [ls[0]] + (ls[1..] + [p]) == ls + [p];
    }
  }

  /** The lines of a cut text are the complete ones and the piece of the next. */
  lemma LinesCut(ls: seq<string>, p: string)
    requires AllLines(ls) && IsLine(p)
    ensures Lines(Unlines(ls) + p) == ls + if p == "" then [] else [p]
  {
    SplitCut(ls, p);
    var pieces := Split(Unlines(ls) + p, '\n');
    assert pieces[..|pieces| - 1] == ls;
    forall i | 0 <= i < |ls| ensures StripCr(ls[i]) == ls[i] {
      assert IsLine(ls[i]);
    }
  }

  /** The piece of a record has its first fields whole, and one that is cut. */
  lemma {:induction false} FieldsCut(fields: seq<string>, p: string) returns (j: nat, cut: string)
    requires fields != [] && CleanAll(fields) && p <= Join(fields)
    ensures j < |fields| && cut <= fields[j] && Split(p, '\t') == fields[..j] + [cut]
  {
    assert Clean(fields[0]);
    if |p| <= |fields[0]| {
      j, cut := 0, p;
      assert |fields| > 1 ==> Join(fields)[..|fields[0]|] == fields[0];
      SplitPlain(p, '\t');
    } else {
      var all, n := Join(fields), |fields[0]|;
      assert all[..n + 1] == fields[0] + "\t" && all[n + 1..] == Join(fields[1..]);
      var rest := p[n + 1..];
      assert rest <= Join(fields[1..]) && p == fields[0] + ['\t'] + rest;
      j, cut := FieldsCut(fields[1..], rest);
      SplitFirst(fields[0], rest, '\t');
      j := j + 1;
      assert fields[..j] == [fields[0]] + fields[1..][..j - 1];
    }
  }

  // ------------------------------------------------------------ what is loaded

  /** The complete records, and then the piece read as a record of its own. */
  function WithPiece(r: Agg, p: string): Agg {
    if p == "" then r else ReadFields(r, Split(p, '\t'))
  }

  lemma RecordLines(rs: seq<seq<string>>)
    requires CleanRecords(rs)
    ensures AllLines([HEADER] + JoinAll(rs)) && |JoinAll(rs)| == |rs|
  {
    var lines := [HEADER] + JoinAll(rs);
    forall i | 0 <= i < |lines| ensures IsLine(lines[i]) {
      if i > 0 {
        JoinedLine(rs[i - 1]);
      }
    }
  }

  lemma PieceIsLine(l: string, p: string)
    requires IsLine(l) && p <= l
    ensures IsLine(p)
  {
    assert forall i :: 0 <= i < |p| ==> p[i] == l[i];
  }

  lemma ReadLinesPiece(r: Agg, lines: seq<string>, p: string)
    ensures ReadLines(r, lines + [p]) == ReadFields(ReadLines(r, lines), Split(p, '\t'))
  {
    assert (lines + [p])[..|lines|] == lines;
  }

  /** What the lines of a cut checkpoint read as. */
  lemma ReadCut(rs: seq<seq<string>>, p: string)
    requires CleanRecords(rs) && IsLine(p)
    ensures Read(Unlines([HEADER] + JoinAll(rs)) + p) == Some(WithPiece(ReadRecords(EMPTY, rs), p))
  {
    RecordLines(rs);
    var ls := [HEADER] + JoinAll(rs);
    LinesCut(ls, p);
    LinesAreRecords(EMPTY, rs);
    hide Lines, Unlines, Split, ReadFields, ReadRecords, ReadLines, CleanRecords, AllLines, IsLine;
    if p == "" {
      assert ls[1..] == JoinAll(rs) && ls + [] == ls;
    } else {
      assert (ls + [p])[1..] == JoinAll(rs) + [p];
      ReadLinesPiece(EMPTY, JoinAll(rs), p);
    }
  }

  /** A text that ends inside the header is no checkpoint. */
  lemma ReadNoHeader(p: string)
    requires IsLine(p) && p < HEADER
    ensures Read(p) == None
  {
    LinesCut([], p);
    assert Unlines([]) + p == p;
    hide Lines, Unlines, ReadLines;
  }

  lemma HeaderIsLine()
    ensures IsLine(HEADER) && HEADER != ""
  {
  }

  lemma OnlyHeader(text: string, header: string)
    requires Lines(text) == [header] && header == HEADER
    ensures Read(text) == Some(EMPTY)
  {
    hide Lines, ReadFields;
    assert [header][1..] == [];
  }

  lemma HeaderAlone()
    ensures Read(HEADER) == Some(EMPTY)
  {
    var header := HEADER;
    HeaderIsLine();
    hide *;
    LinesCut([], header);
    NoLines(header);
    OnlyHeader(header, header);
  }

  lemma NoLines(p: string)
    ensures Unlines([]) + p == p && [] + [p] == [p]
  {
  }

  lemma CleanPrefix(rs: seq<seq<string>>, k: nat)
    requires CleanRecords(rs) && k <= |rs|
    ensures CleanRecords(rs[..k]) && JoinAll(rs)[..k] == JoinAll(rs[..k])
    ensures k < |rs| ==> IsLine(Join(rs[k]))
  {
    if k < |rs| {
      JoinedLine(rs[k]);
    }
  }

  /** A text `t` is the header, `k` complete records and the piece `p` of the next. */
  ghost predicate CutAt(rs: seq<seq<string>>, t: string, k: nat, p: string) {
    && k <= |rs| && t == Unlines([HEADER] + JoinAll(rs[..k])) + p
    && if k < |rs| then p <= Join(rs[k]) else p == ""
  }

  /**
   However a checkpoint is cut short behind its header line, all complete records
   are loaded, and then the piece as if it were a record. Cut inside the header
   it is rejected.
   */
  lemma TornLoads(a: Agg, o: Orders, t: string) returns (k: nat, p: string)
    requires Counts64(a) && IsOrder(a, o) && t <= Render(a, o)
    ensures |t| < |HEADER| ==> Read(t) == None
    ensures |t| == |HEADER| ==> Read(t) == Some(EMPTY)
    ensures |t| > |HEADER| ==>
              CutAt(Records(a, o), t, k, p) && Read(t) == Some(WithPiece(ReadRecords(EMPTY, Records(a, o)[..k]), p))
  {
    hide *;
    var rs := Records(a, o);
    RecordsClean(a, o);
    RecordLines(rs);
    RenderIs(a, o);
    k, p := CutText([HEADER] + JoinAll(rs), t);
    if k == 0 {
      TornHeader(HEADER, [HEADER] + JoinAll(rs), t, p);
    } else {
      k := k - 1;
      TornRecord(rs, t, k, p);
    }
  }

  lemma RenderIs(a: Agg, o: Orders)
    requires IsOrder(a, o)
    ensures Render(a, o) == Unlines([HEADER] + JoinAll(Records(a, o)))
  {
    hide Unlines, JoinAll, Records;
  }

  lemma TornHeader(header: string, ls: seq<string>, t: string, p: string)
    requires header == HEADER && ls != [] && ls[0] == header && t == Unlines(ls[..0]) + p && p <= header
    ensures |t| <= |header| && (|t| < |header| ==> Read(t) == None) && (|t| == |header| ==> Read(t) == Some(EMPTY))
  {
    HeaderIsLine();
    hide Read, IsLine;
    assert t == p;
    PieceIsLine(header, p);
    if |t| < |header| {
      ReadNoHeader(t);
    } else {
      assert t == header;
      HeaderAlone();
    }
  }

  lemma TornRecord(rs: seq<seq<string>>, t: string, k: nat, p: string)
    requires CleanRecords(rs) && k <= |rs| == |JoinAll(rs)|
    requires var ls := [HEADER] + JoinAll(rs);
             t == Unlines(ls[..k + 1]) + p && if k + 1 < |ls| then p <= ls[k + 1] else p == ""
    ensures |t| > |HEADER| && CutAt(rs, t, k, p)
    ensures Read(t) == Some(WithPiece(ReadRecords(EMPTY, rs[..k]), p))
  {
    hide Read, ReadRecords, Join, WithPiece, CleanRecords, Unlines, IsLine;
    var ls := [HEADER] + JoinAll(rs);
    CleanPrefix(rs, k);
    assert ls[..k + 1] == [HEADER] + JoinAll(rs[..k]);
    if k < |rs| {
      assert ls[k + 1] == Join(rs[k]);
      PieceIsLine(Join(rs[k]), p);
    } else {
      EmptyIsLine();
    }
    HeaderFirst(rs[..k]);
    ReadCut(rs[..k], p);
  }

  lemma EmptyIsLine()
    ensures IsLine("")
  {
  }

  lemma HeaderFirst(rs: seq<seq<string>>)
    ensures |Unlines([HEADER] + JoinAll(rs))| > |HEADER|
  {
    var ls := [HEADER] + JoinAll(rs);
    assert ls[0] == HEADER;
  }

  // ------------------------------------------------------------ when the piece does harm

  /** The piece of a record that is entered under a name; `j` of its fields are whole, and the next is `cut`. */
  predicate Harmless(r: Agg, record: seq<string>, j: nat, cut: string)
    requires j < |record| && record != []
  {
    match record[0]
    case "D" => j < 1 || cut in r.done
    case "F" => j < 4 || (record[2], record[3], cut) in r.seenFind
    case "R" => j < 2 || (ParseU64(record[1]) == Some(0) && cut in r.residuals)
    case "A" => j < 3 || (ParseU64(record[1]) == Some(0) == ParseU64(record[2]) && cut in r.assumptionFns)
    case _ => false
  }

  /** A record of the four kinds that carry a name, as it is written. */
  predicate Carries(record: seq<string>) {
    || (|record| == 2 && record[0] == "D")
    || (|record| == 5 && record[0] == "F")
    || (|record| == 3 && record[0] == "R" && ParseU64(record[1]).Some?)
    || (|record| == 4 && record[0] == "A" && ParseU64(record[1]).Some? && ParseU64(record[2]).Some?)
  }

  lemma WrittenCarry(a: Agg, name: string, f: Finding, reason: string, id: string)
    requires Counts64(a) && reason in a.residuals && id in a.assumptionFns
    ensures Carries(DoneLine(name)) && Carries(FindingLine(f))
    ensures Carries(ResidualLine(a, reason)) && Carries(AssumptionLine(a, id))
  {
    ParsePrinted(a.residuals[reason]);
    ParsePrinted(a.assumptionFns[id]);
    ParsePrinted(Sole(a, id));
    hide ParseU64, ToDec, CkptField;
  }

  /**
   The piece of a record that carries a name changes nothing if and only if the
   cut is before the name, or what is left of the name is known already.
   */
  lemma TornExactly(r: Agg, record: seq<string>, p: string) returns (j: nat, cut: string)
    requires Carries(record) && CleanAll(record) && p <= Join(record)
    ensures j < |record| && cut <= record[j] && Split(p, '\t') == record[..j] + [cut]
    ensures ReadFields(r, Split(p, '\t')) == r <==> Harmless(r, record, j, cut)
  {
    j, cut := FieldsCut(record, p);
    hide Split, Join, ParseU64, CleanAll;
    PieceReads(r, record, j, cut);
  }

  /** Counting a name that is there already, and by nothing, is the one way to leave a table as it was. */
  lemma BumpChanges(m: map<string, nat>, k: string, n: nat)
    ensures Bump(m, k, n) == m <==> n == 0 && k in m
  {
    if n == 0 && k in m {
      assert m[k := m[k] + 0] == m;
    } else if k in m {
      assert Bump(m, k, n)[k] != m[k];
    } else {
      assert k in Bump(m, k, n);
    }
  }

  lemma PieceReads(r: Agg, record: seq<string>, j: nat, cut: string)
    requires Carries(record) && j < |record| && cut <= record[j]
    ensures ReadFields(r, record[..j] + [cut]) == r <==> Harmless(r, record, j, cut)
  {
    hide ParseU64;
    if j > 0 {
      match record[0] {
        case "D" => assert r.done + {cut} == r.done <==> cut in r.done;
        case "F" => FindingPiece(r, record, j, cut);
        case "R" => ResidualPiece(r, record, j, cut);
        case _ => AssumptionPiece(r, record, j, cut);
      }
    } else {
      TagPiece(r, record[0], cut);
      assert record[..j] + [cut] == [cut];
    }
  }

  lemma TagPiece(r: Agg, tag: string, cut: string)
    requires (tag == "D" || tag == "F" || tag == "R" || tag == "A") && cut <= tag
    ensures ReadFields(r, [cut]) == r
  {
    assert cut == "" || cut == tag;
  }

  lemma FindingPiece(r: Agg, record: seq<string>, j: nat, cut: string)
    requires |record| == 5 && record[0] == "F" && 0 < j < 5
    ensures ReadFields(r, record[..j] + [cut]) == r <==> Harmless(r, record, j, cut)
  {
    if j == 4 {
      var key := (record[2], record[3], cut);
      assert r.seenFind + {key} == r.seenFind <==> key in r.seenFind;
    }
  }

  lemma ResidualPiece(r: Agg, record: seq<string>, j: nat, cut: string)
    requires |record| == 3 && record[0] == "R" && ParseU64(record[1]).Some? && 0 < j < 3
    ensures ReadFields(r, record[..j] + [cut]) == r <==> Harmless(r, record, j, cut)
  {
    hide ParseU64, Bump;
    if j == 2 {
      BumpChanges(r.residuals, cut, ParseU64(record[1]).value);
    }
  }

  lemma AssumptionPiece(r: Agg, record: seq<string>, j: nat, cut: string)
    requires |record| == 4 && record[0] == "A" && ParseU64(record[1]).Some? && ParseU64(record[2]).Some? && 0 < j < 4
    ensures ReadFields(r, record[..j] + [cut]) == r <==> Harmless(r, record, j, cut)
  {
    hide ParseU64, Bump;
    if j == 3 {
      BumpChanges(r.assumptionFns, cut, ParseU64(record[1]).value);
      BumpChanges(r.soleFns, cut, ParseU64(record[2]).value);
    }
  }

  /** A unit's label cut in two: the unit with the shorter name would count as done. */
  lemma LabelTorn(r: Agg)
    requires "a" !in r.done
    ensures "D\ta" <= Join(DoneLine("ab")) && WithPiece(r, "D\ta") == r.(done := r.done + {"a"})
  {
    assert CkptField("ab") == "ab";
    var p := "D\ta";
    SplitPlain("a", '\t');
    SplitFirst("D", "a", '\t');
    assert p == "D" + ['\t'] + "a";
  }
}
