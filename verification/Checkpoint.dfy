/**
 Writing the scan's aggregate to a checkpoint and reading it back (crates/cli/src/scan_dir.rs:152-274). Sets and
 maps are printed in whatever order they happen to be visited.
 */
module Checkpoint {
  import opened Wrappers
  import opened CheckpointText

  datatype Finding = Finding(file: string, fn: string, property: string, witnessed: string)

  /** Findings are the same when function, property and witness are; the file does not matter. */
  type Key = (string, string, string)

  function FindingKey(f: Finding): Key {
    (f.fn, f.property, f.witnessed)
  }

  /** The part of the aggregate a checkpoint carries. */
  datatype Agg = Agg(pass: nat, fail: nat, unknown: nat, dropped: nat, errored: nat,
                     seenFind: set<Key>, findings: seq<Finding>, done: set<string>,
                     residuals: map<string, nat>, distinctResiduals: nat,
                     sound: nat, underAssumption: nat,
                     assumptionFns: map<string, nat>, soleFns: map<string, nat>, peak: nat)

  const EMPTY: Agg := Agg(0, 0, 0, 0, 0, {}, [], {}, map[], 0, 0, 0, map[], map[], 0)

  const HEADER: string := "CSOLVER-SCAN-CKPT 2"

  // ------------------------------------------------------------ what is written

  function CountsLine(a: Agg): seq<string> {
    ["C", ToDec(a.pass), ToDec(a.fail), ToDec(a.unknown), ToDec(a.dropped), ToDec(a.errored)]
  }

  function DoneLine(name: string): seq<string> {
    ["D", CkptField(name)]
  }

  function FindingLine(f: Finding): seq<string> {
    ["F", CkptField(f.file), CkptField(f.fn), CkptField(f.property), CkptField(f.witnessed)]
  }

  function ResidualLine(a: Agg, reason: string): seq<string>
    requires reason in a.residuals
  {
    ["R", ToDec(a.residuals[reason]), CkptField(reason)]
  }

  function Sole(a: Agg, id: string): nat {
    if id in a.soleFns then a.soleFns[id] else 0
  }

  function AssumptionLine(a: Agg, id: string): seq<string>
    requires id in a.assumptionFns
  {
    ["A", ToDec(a.assumptionFns[id]), ToDec(Sole(a, id)), CkptField(id)]
  }

  /** `q` visits every element of `s` exactly once. */
  ghost predicate Visits<T(!new)>(q: seq<T>, s: set<T>) {
    && (forall x: T :: x in q <==> x in s)
    && (forall i, j :: 0 <= i < j < |q| ==> q[i] != q[j])
  }

  /** The orders in which the three tables were visited. */
  datatype Orders = Orders(done: seq<string>, residuals: seq<string>, assumptions: seq<string>)

  ghost predicate IsOrder(a: Agg, o: Orders) {
    Visits(o.done, a.done) && Visits(o.residuals, a.residuals.Keys) && Visits(o.assumptions, a.assumptionFns.Keys)
  }

  function DoneLines(q: seq<string>): seq<seq<string>> {
    seq(|q|, i requires 0 <= i < |q| => DoneLine(q[i]))
  }

  function FindingLines(fs: seq<Finding>): seq<seq<string>> {
    seq(|fs|, i requires 0 <= i < |fs| => FindingLine(fs[i]))
  }

  function ResidualLines(a: Agg, q: seq<string>): seq<seq<string>>
    requires forall r :: r in q ==> r in a.residuals
  {
    seq(|q|, i requires 0 <= i < |q| => ResidualLine(a, q[i]))
  }

  function AssumptionLines(a: Agg, q: seq<string>): seq<seq<string>>
    requires forall r :: r in q ==> r in a.assumptionFns
  {
    seq(|q|, i requires 0 <= i < |q| => AssumptionLine(a, q[i]))
  }

  function TotalsLines(a: Agg): seq<seq<string>> {
    [["M", ToDec(a.distinctResiduals)], ["S", ToDec(a.sound), ToDec(a.underAssumption)], ["P", ToDec(a.peak)]]
  }

  /** All records after the header. */
  ghost function Records(a: Agg, o: Orders): seq<seq<string>>
    requires IsOrder(a, o)
  {
    [CountsLine(a)] + DoneLines(o.done) + FindingLines(a.findings) + ResidualLines(a, o.residuals) + TotalsLines(a) +
    AssumptionLines(a, o.assumptions)
  }

  function JoinAll(rs: seq<seq<string>>): seq<string> {
    seq(|rs|, i requires 0 <= i < |rs| => Join(rs[i]))
  }

  ghost function Render(a: Agg, o: Orders): string
    requires IsOrder(a, o)
  {
    Unlines([HEADER] + JoinAll(Records(a, o)))
  }

  // ------------------------------------------------------------ what is read

  function NumberAt(fields: seq<string>, i: nat): Option<nat> {
    if i < |fields| then ParseU64(fields[i]) else None
  }

  function NumberOrZero(fields: seq<string>, i: nat): nat {
    match NumberAt(fields, i)
    case Some(n) => n
    case None => 0
  }

  function Bump(m: map<string, nat>, k: string, n: nat): map<string, nat> {
    m[k := (if k in m then m[k] else 0) + n]
  }

  function Max(a: nat, b: nat): nat {
    if a < b then b else a
  }

  /** One record; unknown tags and short records are skipped. */
  function ReadFields(a: Agg, fields: seq<string>): Agg
    requires fields != []
  {
    match fields[0]
    case "C" => a.(pass := NumberOrZero(fields, 1), fail := NumberOrZero(fields, 2), unknown := NumberOrZero(fields, 3),
                   dropped := NumberOrZero(fields, 4), errored := NumberOrZero(fields, 5))
    case "D" => if |fields| > 1 then a.(done := a.done + {fields[1]}) else a
    case "R" =>
      if NumberAt(fields, 1).Some? && |fields| > 2
      then a.(residuals := Bump(a.residuals, fields[2], NumberAt(fields, 1).value)) else a
    case "M" => a.(distinctResiduals := a.distinctResiduals + NumberOrZero(fields, 1))
    case "S" => a.(sound := NumberOrZero(fields, 1), underAssumption := NumberOrZero(fields, 2))
    case "P" => a.(peak := Max(a.peak, NumberOrZero(fields, 1)))
    case "A" =>
      if NumberAt(fields, 1).Some? && NumberAt(fields, 2).Some? && |fields| > 3 then
        a.(assumptionFns := Bump(a.assumptionFns, fields[3], NumberAt(fields, 1).value),
           soleFns := if NumberAt(fields, 2).value > 0 then Bump(a.soleFns, fields[3], NumberAt(fields, 2).value)
               else a.soleFns)
      else a
    case "F" =>
      if |fields| > 4 then
        var f := Finding(fields[1], fields[2], fields[3], fields[4]);
        if FindingKey(f) in a.seenFind then a
        else a.(seenFind := a.seenFind + {FindingKey(f)}, findings := a.findings + [f])
      else a
    case _ => a
  }

  function ReadLines(a: Agg, lines: seq<string>): Agg {
    if lines == [] then a else ReadFields(ReadLines(a, lines[..|lines| - 1]), Split(lines[|lines| - 1], '\t'))
  }

  /** Nothing unless the first line is the header of this format version. */
  function Read(text: string): Option<Agg> {
    var lines := Lines(text);
    if lines == [] || lines[0] != HEADER then None else Some(ReadLines(EMPTY, lines[1..]))
  }

  /** The text is the aggregate's records, its sets and maps visited in some order. */
  ghost predicate IsCheckpoint(a: Agg, text: string) {
    exists o: Orders :: IsOrder(a, o) && text == Render(a, o)
  }

  // ------------------------------------------------------------ the two procedures

  method WriteLine(text: string, fields: seq<string>, ghost lines: seq<string>)
    returns (out: string, ghost lines': seq<string>)
    requires text == Unlines(lines)
    ensures out == Unlines(lines') && lines' == lines + [Join(fields)]
  {
    UnlinesSnoc(lines, Join(fields));
    out := text + Join(fields) + "\n";
    lines' := lines + [Join(fields)];
  }

  /** Print the aggregate, visiting its sets and maps in some order. */
  method WriteCheckpoint(a: Agg) returns (text: string)
    ensures IsCheckpoint(a, text)
  {
    hide Join, Unlines, ToDec, CkptField;
    text := HEADER + "\n";
    ghost var lines := [HEADER];
    HeaderLine();
    text, lines := WriteLine(text, CountsLine(a), lines);
    var left := a.done;
    ghost var dq: seq<string> := [];
    while left != {}
      invariant left <= a.done && Visits(dq, a.done - left) && text == Unlines(lines)
      invariant lines == [HEADER] + JoinAll([CountsLine(a)] + DoneLines(dq))
    {
      var name :| name in left;
      left := left - {name};
      text, lines := WriteLine(text, DoneLine(name), lines);
      DoneSnoc(a, dq, name);
      dq := dq + [name];
    }
    assert a.done - left == a.done;
    ghost var before := [CountsLine(a)] + DoneLines(dq);
    text, lines := WriteFindings(a.findings, text, lines, before);
    before := before + FindingLines(a.findings);
    ghost var rq;
    text, lines, rq := WriteResiduals(a, text, lines, before);
    before := before + ResidualLines(a, rq);
    text, lines := WriteTotals(a, text, lines, before);
    before := before + TotalsLines(a);
    ghost var aq;
    text, lines, aq := WriteAssumptions(a, text, lines, before);
    assert IsOrder(a, Orders(dq, rq, aq)) && text == Render(a, Orders(dq, rq, aq));
  }

  lemma HeaderLine()
    ensures HEADER + "\n" == Unlines([HEADER])
  {
    assert Unlines([]) == "";
  }

  lemma JoinAllSnoc(rs: seq<seq<string>>, r: seq<string>)
    ensures JoinAll(rs + [r]) == JoinAll(rs) + [Join(r)]
  {
  }

  lemma DoneSnoc(a: Agg, dq: seq<string>, name: string)
    ensures JoinAll([CountsLine(a)] + DoneLines(dq + [name])) == JoinAll([CountsLine(a)] + DoneLines(dq)) +
            [Join(DoneLine(name))]
  {
    hide Join;
    assert DoneLines(dq + [name]) == DoneLines(dq) + [DoneLine(name)];
    assert [CountsLine(a)] + DoneLines(dq + [name]) == [CountsLine(a)] + DoneLines(dq) + [DoneLine(name)];
    JoinAllSnoc([CountsLine(a)] + DoneLines(dq), DoneLine(name));
  }

  method WriteFindings(fs: seq<Finding>, text0: string, ghost lines0: seq<string>, ghost before: seq<seq<string>>)
    returns (text: string, ghost lines: seq<string>)
    requires text0 == Unlines(lines0) && lines0 == [HEADER] + JoinAll(before)
    ensures text == Unlines(lines) && lines == [HEADER] + JoinAll(before + FindingLines(fs))
  {
    hide Join, Unlines, CkptField, JoinAll;
    text, lines := text0, lines0;
    assert before + FindingLines(fs[..0]) == before;
    for i := 0 to |fs|
      invariant text == Unlines(lines) && lines == [HEADER] + JoinAll(before + FindingLines(fs[..i]))
    {
      text, lines := WriteLine(text, FindingLine(fs[i]), lines);
      assert before + FindingLines(fs[..i + 1]) == (before + FindingLines(fs[..i])) + [FindingLine(fs[i])];
      JoinAllSnoc(before + FindingLines(fs[..i]), FindingLine(fs[i]));
    }
    assert fs[..|fs|] == fs;
  }

  method WriteResiduals(a: Agg, text0: string, ghost lines0: seq<string>, ghost before: seq<seq<string>>)
    returns (text: string, ghost lines: seq<string>, ghost q: seq<string>)
    requires text0 == Unlines(lines0) && lines0 == [HEADER] + JoinAll(before)
    ensures Visits(q, a.residuals.Keys)
    ensures text == Unlines(lines) && lines == [HEADER] + JoinAll(before + ResidualLines(a, q))
  {
    hide Join, Unlines, CkptField, JoinAll, ToDec;
    text, lines, q := text0, lines0, [];
    assert before + ResidualLines(a, q) == before;
    var left := a.residuals.Keys;
    while left != {}
      invariant left <= a.residuals.Keys && Visits(q, a.residuals.Keys - left)
      invariant text == Unlines(lines) && lines == [HEADER] + JoinAll(before + ResidualLines(a, q))
    {
      var reason :| reason in left;
      left := left - {reason};
      text, lines := WriteLine(text, ResidualLine(a, reason), lines);
      assert before + ResidualLines(a, q + [reason]) == (before + ResidualLines(a, q)) + [ResidualLine(a, reason)];
      JoinAllSnoc(before + ResidualLines(a, q), ResidualLine(a, reason));
      q := q + [reason];
    }
    assert a.residuals.Keys - left == a.residuals.Keys;
  }

  method WriteTotals(a: Agg, text0: string, ghost lines0: seq<string>, ghost before: seq<seq<string>>)
    returns (text: string, ghost lines: seq<string>)
    requires text0 == Unlines(lines0) && lines0 == [HEADER] + JoinAll(before)
    ensures text == Unlines(lines) && lines == [HEADER] + JoinAll(before + TotalsLines(a))
  {
    hide Join, Unlines, CkptField, JoinAll, ToDec;
    var m, s, p := ["M", ToDec(a.distinctResiduals)], ["S", ToDec(a.sound), ToDec(a.underAssumption)],
        ["P", ToDec(a.peak)];
    text, lines := WriteLine(text0, m, lines0);
    JoinAllSnoc(before, m);
    text, lines := WriteLine(text, s, lines);
    JoinAllSnoc(before + [m], s);
    text, lines := WriteLine(text, p, lines);
    JoinAllSnoc(before + [m] + [s], p);
    assert before + [m] + [s] + [p] == before + TotalsLines(a);
  }

  method WriteAssumptions(a: Agg, text0: string, ghost lines0: seq<string>, ghost before: seq<seq<string>>)
    returns (text: string, ghost lines: seq<string>, ghost q: seq<string>)
    requires text0 == Unlines(lines0) && lines0 == [HEADER] + JoinAll(before)
    ensures Visits(q, a.assumptionFns.Keys)
    ensures text == Unlines(lines) && lines == [HEADER] + JoinAll(before + AssumptionLines(a, q))
  {
    hide Join, Unlines, CkptField, JoinAll, ToDec;
    text, lines, q := text0, lines0, [];
    assert before + AssumptionLines(a, q) == before;
    var left := a.assumptionFns.Keys;
    while left != {}
      invariant left <= a.assumptionFns.Keys && Visits(q, a.assumptionFns.Keys - left)
      invariant text == Unlines(lines) && lines == [HEADER] + JoinAll(before + AssumptionLines(a, q))
    {
      var id :| id in left;
      left := left - {id};
      text, lines := WriteLine(text, AssumptionLine(a, id), lines);
      assert before + AssumptionLines(a, q + [id]) == (before + AssumptionLines(a, q)) + [AssumptionLine(a, id)];
      JoinAllSnoc(before + AssumptionLines(a, q), AssumptionLine(a, id));
      q := q + [id];
    }
    assert a.assumptionFns.Keys - left == a.assumptionFns.Keys;
  }

  /** Read a checkpoint, record by record. */
  method ReadCheckpoint(text: string) returns (r: Option<Agg>)
    ensures r == Read(text)
  {
    hide ReadFields;
    var lines := Lines(text);
    if lines == [] || lines[0] != HEADER {
      return None;
    }
    var agg := EMPTY;
    var rest := lines[1..];
    for i := 0 to |rest|
      invariant agg == ReadLines(EMPTY, rest[..i])
    {
      assert rest[..i + 1][..i] == rest[..i];
      agg := ReadFields(agg, Split(rest[i], '\t'));
    }
    assert rest[..|rest|] == rest;
    r := Some(agg);
  }
}
