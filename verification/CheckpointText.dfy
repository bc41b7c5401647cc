/**
 The text layer of the scan checkpoint: decimal numbers, tab-separated fields,
 lines (crates/cli/src/scan_dir.rs:121-126 and the standard splitting it relies on).
 */
module CheckpointText {
  import opened Wrappers

  // ------------------------------------------------------------ numbers

  predicate IsDigit(c: char) {
    '0' <= c <= '9'
  }

  function Digit(d: nat): (c: char)
    requires d < 10
    ensures IsDigit(c) && Value(c) == d
  {
    ('0' as int + d) as char
  }

  function Value(c: char): nat
    requires IsDigit(c)
  {
    c as int - '0' as int
  }

  function ToDec(n: nat): string {
    if n < 10 then [Digit(n)] else ToDec(n / 10) + [Digit(n % 10)]
  }

  predicate AllDigits(s: string) {
    forall i :: 0 <= i < |s| ==> IsDigit(s[i])
  }

  function FromDigits(s: string): nat
    requires AllDigits(s)
  {
    if s == "" then 0 else 10 * FromDigits(s[..|s| - 1]) + Value(s[|s| - 1])
  }

  /** An optional plus sign and at least one digit, below two to the 64. */
  function ParseU64(s: string): Option<nat> {
    var body := if s != "" && s[0] == '+' then s[1..] else s;
    if body == "" || !AllDigits(body) then None
    else if FromDigits(body) < TWO_64 then Some(FromDigits(body)) else None
  }

  lemma {:induction false} DecDigits(n: nat)
    ensures ToDec(n) != "" && AllDigits(ToDec(n)) && FromDigits(ToDec(n)) == n
  {
    if n >= 10 {
      DecDigits(n / 10);
      var s := ToDec(n);
      assert s[..|s| - 1] == ToDec(n / 10);
    } else {
      assert ToDec(n)[..0] == "";
    }
  }

  /** A number printed and read back is the same number. */
  lemma ParsePrinted(n: nat)
    requires n < TWO_64
    ensures ParseU64(ToDec(n)) == Some(n) && Clean(ToDec(n))
  {
    DecDigits(n);
    assert IsDigit(ToDec(n)[0]);
    assert forall i :: 0 <= i < |ToDec(n)| ==> IsDigit(ToDec(n)[i]);
  }

  // ------------------------------------------------------------ fields

  predicate Separator(c: char) {
    c == '\t' || c == '\n' || c == '\r'
  }

  predicate Clean(s: string) {
    forall i :: 0 <= i < |s| ==> !Separator(s[i])
  }

  /** Separators become spaces. */
  function CkptField(s: string): string {
    seq(|s|, i requires 0 <= i < |s| => if Separator(s[i]) then ' ' else s[i])
  }

  /** The escape leaves exactly the clean strings alone. */
  lemma FieldKeepsExactly(s: string)
    ensures CkptField(s) == s <==> Clean(s)
    ensures Clean(CkptField(s))
  {
    if CkptField(s) == s {
      forall i | 0 <= i < |s| ensures !Separator(s[i]) {
        assert CkptField(s)[i] == s[i];
      }
    }
  }

  // ------------------------------------------------------------ splitting

  function Split(s: string, sep: char): (r: seq<string>)
    ensures r != []
  {
    if s == "" then [""]
    else
      var rest := Split(s[1..], sep);
      if s[0] == sep then [""] + rest else [[s[0]] + rest[0]] + rest[1..]
  }

  function Join(fields: seq<string>): string {
    if fields == [] then "" else if |fields| == 1 then fields[0] else fields[0] + "\t" + Join(fields[1..])
  }

  predicate Without(s: string, sep: char) {
    forall i :: 0 <= i < |s| ==> s[i] != sep
  }

  lemma {:induction false} SplitPlain(s: string, sep: char)
    requires Without(s, sep)
    ensures Split(s, sep) == [s]
  {
    if s != "" {
      SplitPlain(s[1..], sep);
      assert [s[0]] + s[1..] == s;
    }
  }

  /** Splitting stops at the first separator. */
  lemma {:induction false} SplitFirst(a: string, b: string, sep: char)
    requires Without(a, sep)
    ensures Split(a + [sep] + b, sep) == [a] + Split(b, sep)
  {
    var s := a + [sep] + b;
    if a == "" {
      assert s[1..] == b;
    } else {
      assert s[1..] == a[1..] + [sep] + b;
      SplitFirst(a[1..], b, sep);
      assert [s[0]] + a[1..] == a;
    }
  }

  predicate CleanAll(fields: seq<string>) {
    forall i :: 0 <= i < |fields| ==> Clean(fields[i])
  }

  /** Joined clean fields split back into themselves. */
  lemma {:induction false} SplitJoined(fields: seq<string>)
    requires fields != [] && CleanAll(fields)
    ensures Split(Join(fields), '\t') == fields
  {
    assert Clean(fields[0]);
    if |fields| == 1 {
      SplitPlain(fields[0], '\t');
    } else {
      SplitJoined(fields[1..]);
      SplitFirst(fields[0], Join(fields[1..]), '\t');
    }
  }

  lemma {:induction false} JoinedLine(fields: seq<string>)
    requires CleanAll(fields)
    ensures IsLine(Join(fields))
  {
    if fields != [] {
      assert Clean(fields[0]);
      if |fields| > 1 {
        JoinedLine(fields[1..]);
      }
    }
  }

  // ------------------------------------------------------------ lines

  /** No line feed and no carriage return inside. */
  predicate IsLine(s: string) {
    forall i :: 0 <= i < |s| ==> s[i] != '\n' && s[i] != '\r'
  }

  function StripCr(s: string): string {
    if s != "" && s[|s| - 1] == '\r' then s[..|s| - 1] else s
  }

  function StripAll(ls: seq<string>): seq<string> {
    seq(|ls|, i requires 0 <= i < |ls| => StripCr(ls[i]))
  }

  /** Lines of a text: a trailing line feed ends the last line rather than starting another. */
  function Lines(text: string): seq<string> {
    var pieces := Split(text, '\n');
    var n := |pieces| - 1;
    StripAll(pieces[..n]) + (if pieces[n] == "" then [] else [pieces[n]])
  }

  function Unlines(ls: seq<string>): string {
    if ls == [] then "" else ls[0] + "\n" + Unlines(ls[1..])
  }

  predicate AllLines(ls: seq<string>) {
    forall i :: 0 <= i < |ls| ==> IsLine(ls[i])
  }

  lemma {:induction false} SplitUnlines(ls: seq<string>)
    requires AllLines(ls)
    ensures Split(Unlines(ls), '\n') == ls + [""]
  {
    if ls != [] {
      SplitUnlines(ls[1..]);
      assert IsLine(ls[0]);
      SplitFirst(ls[0], Unlines(ls[1..]), '\n');
    }
  }

  /** Written lines are read back one by one. */
  lemma LinesBack(ls: seq<string>)
    requires AllLines(ls)
    ensures Lines(Unlines(ls)) == ls
  {
    SplitUnlines(ls);
    var pieces := Split(Unlines(ls), '\n');
    assert pieces[..|pieces| - 1] == ls;
    forall i | 0 <= i < |ls| ensures StripCr(ls[i]) == ls[i] {
      assert IsLine(ls[i]);
    }
  }

  lemma {:induction false} UnlinesSnoc(ls: seq<string>, l: string)
    ensures Unlines(ls + [l]) == Unlines(ls) + l + "\n"
  {
    if ls == [] {
      assert [] + [l] == [l] && [l][1..] == [];
    } else {
      assert (ls + [l])[1..] == ls[1..] + [l];
      UnlinesSnoc(ls[1..], l);
    }
  }
}
