/**
 * Template ids of the IMDb benchmarks (src/benchmarks/imdb.py). A JOB query
 * file `imdb/benchmarks/job/12a.sql` belongs to template `12`, the number its
 * name starts with; a CEB query file `imdb/benchmarks/ceb/1a/<file>` belongs
 * to the template named by its directory, `1a`.
 */
module Imdb {
  import opened Wrappers
  import opened Strings

  /** The join counts the IMDb library covers (src/benchmarks/imdb.py:10-11). */
  const MinNumJoins: int := 6
  const MaxNumJoins: int := 11

  const Marker: string := "imdb/benchmarks/"

  /** `re.match(r"\d+", s)`: the maximal run of digits at the start of `s`. */
  function LeadingDigits(s: string): (r: string)
    ensures StartsWith(s, r) && AllDigits(r)
    ensures |r| < |s| ==> !IsDigit(s[|r|])
  {
    if |s| > 0 && IsDigit(s[0]) then [s[0]] + LeadingDigits(s[1..]) else ""
  }

  /** `IMDbBenchmark._extract_template_from_filepath` (src/benchmarks/imdb.py:63-72). */
  function ExtractTemplate(path: string): (r: Result<string>)
  {
    var afterMarker := Split(path, Marker);
    if |afterMarker| < 2 then Err(IndexError("list index out of range"))
    else
      var fields := Split(afterMarker[1], "/");
      var benchmark := fields[0];
      if |fields| < 2 then Err(IndexError("list index out of range"))
      else if benchmark == "job" then
        var digits := LeadingDigits(fields[1]);
        if digits == "" then Err(AttributeError("'NoneType' object has no attribute 'group'"))
        else Ok(digits)
      else if benchmark != "ceb" then Err(AssertionError("benchmark == \"ceb\""))
      else Ok(fields[1])
  }

  /** A path `imdb/benchmarks/<benchmark>/<name>` followed by nothing or by `/...`. */
  ghost predicate WellFormedPath(path: string, benchmark: string, name: string, rest: string) {
    exists tail ::
      && path == Marker + tail
      && !Contains(tail, Marker)
      && tail == benchmark + "/" + name + rest
      && '/' !in benchmark && '/' !in name
      && (rest == "" || rest[0] == '/')
  }

  /** On a well-formed path, the two splits isolate the benchmark and the name. */
  lemma FieldsOfPath(path: string, benchmark: string, name: string, rest: string)
    requires WellFormedPath(path, benchmark, name, rest)
    ensures |Split(path, Marker)| >= 2
    ensures var fields := Split(Split(path, Marker)[1], "/");
      |fields| >= 2 && fields[0] == benchmark && fields[1] == name
  {
    var tail :| && path == Marker + tail && !Contains(tail, Marker)
      && tail == benchmark + "/" + name + rest
      && '/' !in benchmark && '/' !in name && (rest == "" || rest[0] == '/');
    assert Split(path, Marker) == ["", tail] by {
      MarkerSplit(path, tail);
    }
    NameFields(tail, benchmark, name, rest);
  }

  /** A path that is the marker followed by a tail without it splits into nothing and the tail. */
  lemma MarkerSplit(path: string, tail: string)
    requires path == Marker + tail && !Contains(tail, Marker)
    ensures Split(path, Marker) == ["", tail]
  {
    assert "" + Marker + tail == path;
    SplitAt("", Marker, tail);
    SplitAbsent(tail, Marker);
  }

  /** `<benchmark>/<name><rest>` splits at slashes into the benchmark, the name, and whatever `rest` holds. */
  lemma NameFields(tail: string, benchmark: string, name: string, rest: string)
    requires tail == benchmark + "/" + name + rest
    requires '/' !in benchmark && '/' !in name && (rest == "" || rest[0] == '/')
    ensures var fields := Split(tail, "/");
      |fields| >= 2 && fields[0] == benchmark && fields[1] == name
  {
    assert tail == benchmark + ['/'] + (name + rest);
    SplitAtChar(benchmark, '/', name + rest);
    if rest == "" {
      assert name + rest == name;
      SplitNoChar(name, '/');
    } else {
      assert name + rest == name + ['/'] + rest[1..];
      SplitAtChar(name, '/', rest[1..]);
    }
  }

  /** A JOB file belongs to the template its name's leading number gives; a name without one is an error. */
  lemma JobTemplate(path: string, name: string, rest: string)
    requires WellFormedPath(path, "job", name, rest)
    ensures LeadingDigits(name) != "" ==> ExtractTemplate(path) == Ok(LeadingDigits(name))
    ensures LeadingDigits(name) == "" ==> ExtractTemplate(path).Err? && ExtractTemplate(path).error.AttributeError?
    ensures ExtractTemplate(path).Ok? ==> AllDigits(ExtractTemplate(path).value) && StartsWith(name, ExtractTemplate(path).value)
  {
    FieldsOfPath(path, "job", name, rest);
  }

  /** A JOB name that does not start with a digit has no template. */
  lemma JobNoLeadingDigit(path: string, name: string, rest: string)
    requires WellFormedPath(path, "job", name, rest)
    requires |name| == 0 || !IsDigit(name[0])
    ensures ExtractTemplate(path) == Err(AttributeError("'NoneType' object has no attribute 'group'"))
  {
    FieldsOfPath(path, "job", name, rest);
  }

  /** The example from the JOB file names: `12a.sql` is template `12`. */
  lemma JobExample(path: string)
    requires path == "imdb/benchmarks/job/12a.sql"
    ensures ExtractTemplate(path) == Ok("12")
  {
    ExamplePathWellFormed();
    ExampleLeadingDigits();
    JobTemplate(path, "12a.sql", "");
  }

  lemma ExampleLeadingDigits()
    ensures LeadingDigits("12a.sql") == "12"
  {
    assert "12a.sql"[1..] == "2a.sql" && "2a.sql"[1..] == "a.sql";
  }

  lemma ExamplePathWellFormed()
    ensures WellFormedPath("imdb/benchmarks/job/12a.sql", "job", "12a.sql", "")
  {
    WellFormedOfParts("imdb/benchmarks/job/12a.sql", "job/12a.sql", "job", "12a.sql");
  }

  /** A path built from the marker, a benchmark and a name, none of which repeats the marker's `i`. */
  lemma WellFormedOfParts(path: string, tail: string, benchmark: string, name: string)
    requires path == Marker + tail && tail == benchmark + "/" + name
    requires '/' !in benchmark && '/' !in name && 'i' !in benchmark && 'i' !in name
    ensures WellFormedPath(path, benchmark, name, "")
  {
    assert 'i' !in tail;
    NotContainsByChar(tail, Marker, 'i');
    assert tail == benchmark + "/" + name + "";
  }

  /** A CEB file belongs to the template named by its directory. */
  lemma CebTemplate(path: string, dir: string, rest: string)
    requires WellFormedPath(path, "ceb", dir, rest)
    ensures ExtractTemplate(path) == Ok(dir)
  {
    FieldsOfPath(path, "ceb", dir, rest);
  }

  /** Any other benchmark directory fails the assertion. */
  lemma UnknownBenchmark(path: string, benchmark: string, name: string, rest: string)
    requires WellFormedPath(path, benchmark, name, rest)
    requires benchmark != "job" && benchmark != "ceb"
    ensures ExtractTemplate(path) == Err(AssertionError("benchmark == \"ceb\""))
  {
    FieldsOfPath(path, benchmark, name, rest);
  }

  /** A path outside `imdb/benchmarks/` has no second split field. */
  lemma OutsideBenchmarks(path: string)
    requires !Contains(path, Marker)
    ensures ExtractTemplate(path) == Err(IndexError("list index out of range"))
  {
    SplitAbsent(path, Marker);
  }
}
