/**
 * The TPC-DS library (src/benchmarks/tpcds.py): the template id of a
 * generated query file, the `N days` rewrite applied to generated SQL, and
 * the text pipeline that turns a generated file into its distinct statements.
 */
module Tpcds {
  import opened Wrappers
  import opened Strings

  /** The join counts the TPC-DS library covers (src/benchmarks/tpcds.py:8-9). */
  const MinNumJoins: int := 2
  const MaxNumJoins: int := 7

  /** `queries_dir_path` of a benchmark at scale factor `scale`. */
  function QueriesDirPath(scale: int): string {
    "tpcds/" + IntToString(scale) + "gb/queries"
  }

  /** The queries directory is `tpcds`, then the scale directory `<scale>gb`, then `queries`. */
  lemma QueriesDirFields(scale: int)
    ensures Split(QueriesDirPath(scale), "/") == ["tpcds", IntToString(scale) + "gb", "queries"]
  {
    var scaleDir := IntToString(scale) + "gb";
    assert '/' !in scaleDir by {
      IntToStringChars(scale);
      assert '/' !in IntToString(scale);
    }
    var tail := scaleDir + "/" + "queries";
    assert QueriesDirPath(scale) == "tpcds" + "/" + tail;
    SplitNoChar("queries", '/');
    SplitAtChar(scaleDir, '/', "queries");
    SplitAtChar("tpcds", '/', tail);
  }

  // ---------------------------------------------------------------- template ids

  /** `TPCDSBenchmark._extract_template_from_filepath` (src/benchmarks/tpcds.py:29-31). */
  function ExtractTemplate(scale: int, path: string): (r: Result<string>)
  {
    var dir := QueriesDirPath(scale);
    if !Contains(path, dir) then Err(AssertionError(path))
    else
      var afterDir := Split(path, dir);
      if |afterDir| < 2 then Err(IndexError("list index out of range"))
      else
        var fields := Split(afterDir[1], "/");
        if |fields| < 2 then Err(IndexError("list index out of range"))
        else Ok(fields[1])
  }

  /** The path the setup writes query `i` of template `t` to. */
  function QueryFilePath(scale: int, t: int, i: int): string {
    QueriesDirPath(scale) + ("/" + IntToString(t) + "/" + (IntToString(i) + ".sql"))
  }

  /** Extraction recovers the template number of every file the setup writes. */
  lemma TemplateRoundTrip(scale: int, t: int, i: int)
    ensures ExtractTemplate(scale, QueryFilePath(scale, t, i)) == Ok(IntToString(t))
  {
    var ts, tail := IntToString(t), IntToString(i) + ".sql";
    assert '/' !in ts && 't' !in ts by {
      IntToStringChars(t);
    }
    assert 't' !in tail by {
      IntToStringChars(i);
      assert 't' !in ".sql";
    }
    ExtractFromParts(scale, QueryFilePath(scale, t, i), ts, tail);
  }

  /** The queries directory holds a `t`, a character no template or file number has. */
  lemma QueriesDirHasT(scale: int)
    ensures 't' in QueriesDirPath(scale)
  {
    assert QueriesDirPath(scale)[0] == 't';
  }

  /** A path `<dir>/<ts>/<tail>` whose parts hold no `t` and no slash in `ts` is read as template `ts`. */
  lemma ExtractFromParts(scale: int, path: string, ts: string, tail: string)
    requires path == QueriesDirPath(scale) + ("/" + ts + "/" + tail)
    requires '/' !in ts && 't' !in ts && 't' !in tail
    ensures ExtractTemplate(scale, path) == Ok(ts)
  {
    var rest := "/" + ts + "/" + tail;
    assert !Contains(rest, QueriesDirPath(scale)) by {
      assert 't' !in rest;
      QueriesDirHasT(scale);
      NotContainsByChar(rest, QueriesDirPath(scale), 't');
    }
    SecondField(ts, tail);
    ExtractAfterDir(scale, rest);
  }

  /** A path that starts with the directory and does not repeat it is read from the part after it. */
  lemma ExtractAfterDir(scale: int, rest: string)
    requires !Contains(rest, QueriesDirPath(scale))
    ensures |Split(rest, "/")| >= 2 ==> ExtractTemplate(scale, QueriesDirPath(scale) + rest) == Ok(Split(rest, "/")[1])
  {
    var dir := QueriesDirPath(scale);
    var path := dir + rest;
    assert OccursAt(path, dir, 0) by { assert path[0..|dir|] == dir; }
    ContainsIff(path, dir);
    SplitLeading(dir, rest);
  }

  lemma SecondField(a: string, b: string)
    requires '/' !in a
    ensures |Split("/" + a + "/" + b, "/")| >= 2 && Split("/" + a + "/" + b, "/")[1] == a
  {
    assert "/" + a + "/" + b == "" + ['/'] + (a + ['/'] + b);
    SplitAtChar("", '/', a + ['/'] + b);
    SplitAtChar(a, '/', b);
  }

  /** A path outside the queries directory fails the assertion. */
  lemma WrongDirectory(scale: int, path: string)
    requires !Contains(path, QueriesDirPath(scale))
    ensures ExtractTemplate(scale, path) == Err(AssertionError(path))
  {
  }

  // ---------------------------------------------------------------- the days rewrite

  /** `d`, `a`, `y`, `s` under `re.IGNORECASE`; `s` also matches the long s, U+017F. */
  predicate LetterMatches(c: char, lower: char) {
    if lower == 's' then c == 's' || c == 'S' || c == 'ſ'
    else c == lower || c as int == lower as int - 32
  }

  function DigitRun(s: string): (n: nat)
    ensures n <= |s| && AllDigits(s[..n]) && (n < |s| ==> !IsDigit(s[n]))
  {
    if |s| > 0 && IsDigit(s[0]) then 1 + DigitRun(s[1..]) else 0
  }

  function SpaceRun(s: string): (n: nat)
    ensures n <= |s| && (forall i :: 0 <= i < n ==> IsSpace(s[i])) && (n < |s| ==> !IsSpace(s[n]))
  {
    if |s| > 0 && IsSpace(s[0]) then 1 + SpaceRun(s[1..]) else 0
  }

  /** A match of `(\d+)\s+days` at the start of `s`: the captured digits and the match length. */
  datatype Match = Match(digits: string, length: nat)

  /**
   * The regular expression at the start of `s`. Backtracking cannot help: giving
   * back a digit leaves a digit where `\s` is needed, and giving back a space
   * leaves a space where `d` is needed, so only the maximal runs can match.
   */
  function MatchPrefix(s: string): (r: Option<Match>)
    ensures r.Some? ==> 0 < |r.value.digits| < r.value.length <= |s|
    ensures r.Some? ==> StartsWith(s, r.value.digits) && AllDigits(r.value.digits)
  {
    var d := DigitRun(s);
    var w := SpaceRun(s[d..]);
    var e := d + w;
    if d > 0 && w > 0 && e + 4 <= |s|
       && LetterMatches(s[e], 'd') && LetterMatches(s[e + 1], 'a')
       && LetterMatches(s[e + 2], 'y') && LetterMatches(s[e + 3], 's')
    then Some(Match(s[..d], e + 4))
    else None
  }

  function Interval(digits: string): string {
    "INTERVAL '" + digits + "' DAY"
  }

  /** `_replace_days_with_interval` (src/benchmarks/tpcds.py:33-36): `re.sub` scanning left to right. */
  function ReplaceDays(s: string): string
    decreases |s|
  {
    if s == [] then []
    else match MatchPrefix(s)
      case Some(m) => Interval(m.digits) + ReplaceDays(s[m.length..])
      case None => [s[0]] + ReplaceDays(s[1..])
  }

  /** No match starts at any of the first `p` positions. */
  ghost predicate NoMatchBefore(s: string, p: nat)
    requires p <= |s|
  {
    forall q :: 0 <= q < p ==> NoMatchAt(s, q)
  }

  ghost predicate NoMatchAt(s: string, q: nat)
    requires q <= |s|
  {
    MatchPrefix(s[q..]).None?
  }

  /** Text before the first match is copied unchanged. */
  lemma CopyUntilMatch(s: string, p: nat)
    requires p <= |s| && NoMatchBefore(s, p)
    ensures ReplaceDays(s) == s[..p] + ReplaceDays(s[p..])
  {
    CopyFrom(s, 0, p);
    assert s[0..] == s && s[0..p] == s[..p];
  }

  /** From position `k` on, the text up to `p` is copied unchanged. */
  lemma {:induction false} CopyFrom(s: string, k: nat, p: nat)
    requires k <= p <= |s| && NoMatchBefore(s, p)
    ensures ReplaceDays(s[k..]) == s[k..p] + ReplaceDays(s[p..])
    decreases p - k
  {
    if k < p {
      assert ReplaceDays(s[k..]) == [s[k]] + ReplaceDays(s[k + 1..]) by {
        assert NoMatchAt(s, k);
        KeepAt(s, k);
      }
      assert ReplaceDays(s[k + 1..]) == s[k + 1..p] + ReplaceDays(s[p..]) by {
        CopyFrom(s, k + 1, p);
      }
      Glue(s, k, p, ReplaceDays(s[k..]), ReplaceDays(s[k + 1..]), ReplaceDays(s[p..]));
    }
  }

  lemma Glue(s: string, k: nat, p: nat, whole: string, rest: string, tail: string)
    requires k < p <= |s| && whole == [s[k]] + rest && rest == s[k + 1..p] + tail
    ensures whole == s[k..p] + tail
  {
    assert s[k..p] == [s[k]] + s[k + 1..p];
  }

  /** Where nothing matches, the character at `k` is copied. */
  lemma KeepAt(s: string, k: nat)
    requires k < |s| && NoMatchAt(s, k)
    ensures ReplaceDays(s[k..]) == [s[k]] + ReplaceDays(s[k + 1..])
  {
    var t := s[k..];
    assert t[0] == s[k] && t[1..] == s[k + 1..];
    KeepFirst(t);
  }

  /** Text before the leftmost match is kept; the match becomes an interval; scanning resumes after it. */
  lemma {:induction false} LeftmostMatch(s: string, p: nat, m: Match)
    requires p < |s| && NoMatchBefore(s, p) && MatchPrefix(s[p..]) == Some(m)
    ensures ReplaceDays(s) == s[..p] + Interval(m.digits) + ReplaceDays(s[p + m.length..])
  {
    CopyUntilMatch(s, p);
    UseMatch(s[p..], m);
    assert s[p..][m.length..] == s[p + m.length..];
    Substitute(ReplaceDays(s), s[..p], ReplaceDays(s[p..]), Interval(m.digits), ReplaceDays(s[p + m.length..]));
  }

  lemma Substitute(whole: string, head: string, rest: string, middle: string, tail: string)
    requires whole == head + rest && rest == middle + tail
    ensures whole == head + middle + tail
  {
  }

  /** A match at the start becomes an interval. */
  lemma UseMatch(s: string, m: Match)
    requires |s| > 0 && MatchPrefix(s) == Some(m)
    ensures ReplaceDays(s) == Interval(m.digits) + ReplaceDays(s[m.length..])
  {
  }

  /** If nothing matches at the start, the first character is copied. */
  lemma KeepFirst(s: string)
    requires s != [] && MatchPrefix(s).None?
    ensures ReplaceDays(s) == [s[0]] + ReplaceDays(s[1..])
  {
  }

  /** Text in which the pattern matches nowhere is unchanged. */
  lemma NoMatchUnchanged(s: string)
    requires NoMatchBefore(s, |s|)
    ensures ReplaceDays(s) == s
  {
    CopyUntilMatch(s, |s|);
    assert s[..|s|] == s && s[|s|..] == [];
  }

  /** Text without a digit is unchanged, since every match starts with one. */
  lemma NoDigitUnchanged(s: string)
    requires forall i :: 0 <= i < |s| ==> !IsDigit(s[i])
    ensures ReplaceDays(s) == s
  {
    forall q | 0 <= q < |s| ensures NoMatchAt(s, q) {
      assert s[q..][0] == s[q];
    }
    NoMatchUnchanged(s);
  }

  /** The rewrite of the generated interval syntax. */
  lemma DaysExample(s: string)
    requires s == "30 Days"
    ensures ReplaceDays(s) == "INTERVAL '30' DAY"
  {
    assert DigitRun(s) == 2 by {
      assert s[1..] == "0 Days" && "0 Days"[1..] == " Days";
      assert DigitRun(" Days") == 0;
      assert DigitRun("0 Days") == 1;
    }
    assert s[2..] == " Days";
    assert SpaceRun(" Days") == 1 by {
      assert " Days"[1..] == "Days";
      assert !IsSpace('D');
    }
    assert LetterMatches(s[3], 'd') && LetterMatches(s[4], 'a') && LetterMatches(s[5], 'y') && LetterMatches(s[6], 's');
    assert s[..2] == "30";
    assert MatchPrefix(s) == Some(Match("30", 7));
    assert s[7..] == [];
  }

  // ---------------------------------------------------------------- statements of a generated file

  function StripAll(lines: seq<string>): (r: seq<string>)
    ensures |r| == |lines| && forall i :: 0 <= i < |lines| ==> r[i] == Strip(lines[i])
  {
    if lines == [] then [] else [Strip(lines[0])] + StripAll(lines[1..])
  }

  /** `[line.strip() for line in pieces if len(line.strip()) > 0]`. */
  function NonBlankStripped(pieces: seq<string>): (r: seq<string>)
    ensures forall q :: q in r <==> exists piece :: piece in pieces && q == Strip(piece) && |q| > 0
  {
    if pieces == [] then []
    else
      var rest := NonBlankStripped(pieces[1..]);
      assert forall piece :: piece in pieces <==> piece == pieces[0] || piece in pieces[1..];
      if |Strip(pieces[0])| > 0 then [Strip(pieces[0])] + rest else rest
  }

  /** The rewritten text of a generated file: its lines stripped, joined by spaces, intervals rewritten. */
  function RewrittenText(lines: seq<string>): string {
    ReplaceDays(Join(StripAll(lines), " "))
  }

  /** The distinct non-blank statements between the `;` of a text. */
  function StatementsOfText(text: string): set<string> {
    set q | q in NonBlankStripped(Split(text, ";"))
  }

  /** The distinct statements of a generated query file (src/benchmarks/tpcds.py:72-77). */
  function Statements(lines: seq<string>): set<string> {
    StatementsOfText(RewrittenText(lines))
  }

  /** Every statement is stripped, non-empty and free of `;`, and every non-blank piece between two `;` is one. */
  lemma StatementsShape(text: string)
    ensures forall q :: q in StatementsOfText(text) ==> |q| > 0 && Strip(q) == q && ';' !in q
    ensures forall piece :: piece in Split(text, ";") && |Strip(piece)| > 0 ==> Strip(piece) in StatementsOfText(text)
  {
    SplitPiecesLackSep(text, ";");
    forall q | q in StatementsOfText(text) ensures |q| > 0 && Strip(q) == q && ';' !in q {
      var piece :| piece in Split(text, ";") && q == Strip(piece) && |q| > 0;
      StatementLacksSemicolon(piece);
      StripIdempotent(piece);
    }
  }

  lemma StatementLacksSemicolon(piece: string)
    requires !Contains(piece, ";")
    ensures ';' !in Strip(piece)
  {
    ContainsChar(piece, ';');
    StripIsPiece(piece);
  }

  /** The statements of a generated file have the shape above. */
  lemma GeneratedStatementsShape(lines: seq<string>)
    ensures forall q :: q in Statements(lines) ==> |q| > 0 && Strip(q) == q && ';' !in q
    ensures forall piece :: piece in Split(RewrittenText(lines), ";") && |Strip(piece)| > 0 ==> Strip(piece) in Statements(lines)
  {
    StatementsShape(RewrittenText(lines));
  }
}
