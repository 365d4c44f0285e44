/**
 * `unpack_workloads` of setup.py: every workload CSV the allocator wrote is
 * turned into a runnable SQL script by inlining, line by line, the library
 * query each row names. Directories and files are given as values: a group is
 * a workload directory with its files in listing order, and the library query
 * files are a map from path to contents.
 */
module Unpack {
  import opened Wrappers
  import opened Strings

  /** A file of a workload directory and its lines as `readlines` returns them. */
  datatype CsvFile = CsvFile(filename: string, lines: seq<string>)

  /** A workload directory: its base name and its files. */
  datatype Group = Group(name: string, files: seq<CsvFile>)

  /** A script written next to its CSV. */
  datatype SqlFile = SqlFile(group: string, filename: string, contents: string)

  type QueryFiles = map<string, string>

  /** The files that are unpacked: CSVs other than the group statistics (setup.py:17-18). */
  predicate IsWorkloadCsv(filename: string) {
    EndsWith(filename, ".csv") && filename != "stats.csv"
  }

  /** `readlines()[1:]`: every line but the CSV header. */
  function Workload(lines: seq<string>): seq<string>
  {
    if |lines| == 0 then [] else lines[1..]
  }

  /** The query path of a row: the text before its first comma (setup.py:26). */
  function PathField(line: string): string {
    Split(line, ",")[0]
  }

  /** A query read from disk, stripped and terminated by exactly one final `;` check (setup.py:28-29). */
  function Terminate(query: string): (r: string)
  {
    var q := Strip(query);
    if EndsWith(q, ";") then q else q + ";"
  }

  /** Every terminated query ends with `;` and keeps the stripped text in front of it. */
  lemma TerminateEnds(query: string)
    ensures EndsWith(Terminate(query), ";")
    ensures StartsWith(Terminate(query), Strip(query))
    ensures |Terminate(query)| <= |Strip(query)| + 1
  {
  }

  /** Terminating twice is terminating once. */
  lemma TerminateIdempotent(query: string)
    ensures Terminate(Terminate(query)) == Terminate(query)
  {
    var q := Strip(query);
    var t := Terminate(query);
    StripIsPiece(query);
    assert |t| > 0 && t[|t| - 1] == ';';
    if EndsWith(q, ";") {
      assert t == q;
    } else {
      assert t[0] == (if |q| > 0 then q[0] else ';');
    }
    StripNoEdges(t);
  }

  /** The text one row contributes (setup.py:30). */
  function Fragment(path: string, query: string): string {
    "-- " + path + "\n" + query + "\n\n"
  }

  /** A fragment opens with its comment line and, for a terminated query, closes with `;` and a blank line. */
  lemma FragmentEnds(path: string, query: string)
    requires EndsWith(query, ";")
    ensures StartsWith(Fragment(path, query), "-- " + path + "\n")
    ensures EndsWith(Fragment(path, query), ";\n\n")
  {
    var f := Fragment(path, query);
    assert f == ("-- " + path + "\n") + (query + "\n\n");
    assert f[|f| - 3] == query[|query| - 1];
  }

  /** The fragment of one row, or the error of opening a missing file. */
  function FragmentOf(line: string, files: QueryFiles): (r: Result<string>)
    ensures r.Err? <==> PathField(line) !in files
    ensures r.Ok? ==> StartsWith(r.value, "-- " + PathField(line) + "\n") && EndsWith(r.value, ";\n\n")
  {
    var path := PathField(line);
    if path !in files then Err(FileNotFoundError(path))
    else
      var query := Terminate(files[path]);
      TerminateEnds(files[path]);
      FragmentEnds(path, query);
      Ok(Fragment(path, query))
  }

  /** The script of a sequence of rows: their fragments in order, or the first error. */
  function Script(rows: seq<string>, files: QueryFiles): Result<string>
  {
    if |rows| == 0 then Ok("")
    else
      var front :- Script(rows[..|rows| - 1], files);
      var last :- FragmentOf(rows[|rows| - 1], files);
      Ok(front + last)
  }

  /** A script fails exactly when some row names a file that does not exist. */
  lemma {:induction false} ScriptSucceeds(rows: seq<string>, files: QueryFiles)
    ensures Script(rows, files).Ok? <==> AllFound(rows, files)
  {
    if |rows| > 0 {
      ScriptSucceeds(rows[..|rows| - 1], files);
      ScriptStep(rows, files);
      AllFoundStep(rows, files);
    }
  }

  /** Every row names an existing library file. */
  ghost predicate AllFound(rows: seq<string>, files: QueryFiles) {
    forall i :: 0 <= i < |rows| ==> PathField(rows[i]) in files
  }

  lemma AllFoundStep(rows: seq<string>, files: QueryFiles)
    requires |rows| > 0
    ensures AllFound(rows, files) <==> AllFound(rows[..|rows| - 1], files) && PathField(rows[|rows| - 1]) in files
  {
    var front := rows[..|rows| - 1];
    assert forall i :: 0 <= i < |front| ==> front[i] == rows[i];
  }

  lemma ScriptStep(rows: seq<string>, files: QueryFiles)
    requires |rows| > 0
    ensures Script(rows, files).Ok? <==>
      Script(rows[..|rows| - 1], files).Ok? && PathField(rows[|rows| - 1]) in files
  {
  }

  /** The script of one more row. */
  lemma ScriptExtend(rows: seq<string>, i: nat, files: QueryFiles)
    requires i < |rows|
    ensures var front := Script(rows[..i], files);
      var last := FragmentOf(rows[i], files);
      Script(rows[..i + 1], files) ==
        if front.Err? then front
        else if last.Err? then Err(last.error)
        else Ok(front.value + last.value)
  {
    assert rows[..i + 1][..i] == rows[..i];
    assert rows[..i + 1][i] == rows[i];
  }

  /** Once a prefix of the rows fails, the whole script fails with the same error. */
  lemma {:induction false} ScriptErrPrefix(rows: seq<string>, n: nat, files: QueryFiles)
    requires n <= |rows| && Script(rows[..n], files).Err?
    ensures Script(rows, files) == Script(rows[..n], files)
    decreases |rows| - n
  {
    if n < |rows| {
      assert rows[..n + 1][..n] == rows[..n];
      ScriptErrPrefix(rows, n + 1, files);
    } else {
      assert rows[..n] == rows;
    }
  }

  /**
   * The body of the loop over one CSV (setup.py:20-30): the script of its rows
   * after the header, and how many rows it counted.
   */
  method UnpackCsv(lines: seq<string>, files: QueryFiles) returns (r: Result<string>, count: nat)
    ensures r == Script(Workload(lines), files)
    ensures r.Ok? ==> count == |Workload(lines)|
  {
    var workload := Workload(lines);
    var sqlWorkload := "";
    count := 0;
    var i := 0;
    while i < |workload|
      invariant 0 <= i <= |workload| && count == i
      invariant Script(workload[..i], files) == Ok(sqlWorkload)
    {
      count := count + 1;
      var fragment := FragmentOf(workload[i], files);
      ScriptExtend(workload, i, files);
      if fragment.Err? {
        ScriptErrPrefix(workload, i + 1, files);
        return Err(fragment.error), count;
      }
      sqlWorkload := sqlWorkload + fragment.value;
      i := i + 1;
    }
    assert workload[..i] == workload;
    r := Ok(sqlWorkload);
  }

  /** The scripts of the workload CSVs of one group, in listing order. */
  function GroupScripts(group: string, csvs: seq<CsvFile>, files: QueryFiles): Result<seq<SqlFile>>
  {
    if |csvs| == 0 then Ok([])
    else
      var front :- GroupScripts(group, csvs[..|csvs| - 1], files);
      var csv := csvs[|csvs| - 1];
      if !IsWorkloadCsv(csv.filename) then Ok(front)
      else
        var contents :- Script(Workload(csv.lines), files);
        Ok(front + [SqlFile(group, ReplaceAll(csv.filename, ".csv", ".sql"), contents)])
  }

  lemma {:induction false} GroupErrPrefix(group: string, csvs: seq<CsvFile>, n: nat, files: QueryFiles)
    requires n <= |csvs| && GroupScripts(group, csvs[..n], files).Err?
    ensures GroupScripts(group, csvs, files) == GroupScripts(group, csvs[..n], files)
    decreases |csvs| - n
  {
    if n < |csvs| {
      assert csvs[..n + 1][..n] == csvs[..n];
      GroupErrPrefix(group, csvs, n + 1, files);
    } else {
      assert csvs[..n] == csvs;
    }
  }

  /** A file that is not a workload CSV adds no script and no rows. */
  lemma GroupSkip(group: string, csvs: seq<CsvFile>, i: nat, files: QueryFiles)
    requires i < |csvs| && !IsWorkloadCsv(csvs[i].filename)
    ensures GroupScripts(group, csvs[..i + 1], files) == GroupScripts(group, csvs[..i], files)
    ensures GroupCount(csvs[..i + 1]) == GroupCount(csvs[..i])
  {
    assert csvs[..i + 1][..i] == csvs[..i];
    assert csvs[..i + 1][i] == csvs[i];
  }

  /** A workload CSV adds its script, or its error, and its rows. */
  lemma GroupAdd(group: string, csvs: seq<CsvFile>, i: nat, files: QueryFiles, before: seq<SqlFile>, script: Result<string>)
    requires i < |csvs| && IsWorkloadCsv(csvs[i].filename)
    requires GroupScripts(group, csvs[..i], files) == Ok(before) && script == Script(Workload(csvs[i].lines), files)
    ensures script.Err? ==> GroupScripts(group, csvs[..i + 1], files) == Err(script.error)
    ensures script.Ok? ==>
      GroupScripts(group, csvs[..i + 1], files) == Ok(before + [SqlFile(group, ReplaceAll(csvs[i].filename, ".csv", ".sql"), script.value)])
    ensures GroupCount(csvs[..i + 1]) == GroupCount(csvs[..i]) + |Workload(csvs[i].lines)|
  {
    assert csvs[..i + 1][..i] == csvs[..i];
    assert csvs[..i + 1][i] == csvs[i];
  }

  /** The rows the group contributes to `num_queries`. */
  function GroupCount(csvs: seq<CsvFile>): nat
  {
    if |csvs| == 0 then 0
    else
      var csv := csvs[|csvs| - 1];
      GroupCount(csvs[..|csvs| - 1]) + (if IsWorkloadCsv(csv.filename) then |Workload(csv.lines)| else 0)
  }

  /** The scripts of every group, in order. */
  function AllScripts(groups: seq<Group>, files: QueryFiles): Result<seq<SqlFile>>
  {
    if |groups| == 0 then Ok([])
    else
      var front :- AllScripts(groups[..|groups| - 1], files);
      var g := groups[|groups| - 1];
      var scripts :- GroupScripts(g.name, g.files, files);
      Ok(front + scripts)
  }

  lemma {:induction false} AllErrPrefix(groups: seq<Group>, n: nat, files: QueryFiles)
    requires n <= |groups| && AllScripts(groups[..n], files).Err?
    ensures AllScripts(groups, files) == AllScripts(groups[..n], files)
    decreases |groups| - n
  {
    if n < |groups| {
      assert groups[..n + 1][..n] == groups[..n];
      AllErrPrefix(groups, n + 1, files);
    } else {
      assert groups[..n] == groups;
    }
  }

  /** `num_queries[name]` after the first `n` groups: all rows of the groups with that name. */
  function Count(groups: seq<Group>, name: string): nat
  {
    if |groups| == 0 then 0
    else
      var g := groups[|groups| - 1];
      Count(groups[..|groups| - 1], name) + (if g.name == name then GroupCount(g.files) else 0)
  }

  /** `num_queries` as a map: the groups' names with their counts. */
  ghost function Counts(groups: seq<Group>): map<string, nat> {
    map g | g in Names(groups) :: Count(groups, g)
  }

  /** `num_queries` as the loop of setup.py:33 builds it, one group at a time. */
  function Tally(groups: seq<Group>): map<string, nat>
  {
    if |groups| == 0 then map[]
    else
      var front := Tally(groups[..|groups| - 1]);
      var g := groups[|groups| - 1];
      front[g.name := (if g.name in front then front[g.name] else 0) + GroupCount(g.files)]
  }

  /** Tallying group by group gives every name the rows of all groups with that name. */
  lemma {:induction false} TallyCounts(groups: seq<Group>)
    ensures Tally(groups) == Counts(groups)
  {
    if |groups| == 0 {
      assert Names(groups) == {};
    } else {
      var i := |groups| - 1;
      assert groups[..i + 1] == groups;
      TallyCounts(groups[..i]);
      CountsStep(groups, i, GroupCount(groups[i].files), Counts(groups[..i]));
    }
  }

  /** The names of the groups. */
  ghost function Names(groups: seq<Group>): set<string> {
    set i | 0 <= i < |groups| :: groups[i].name
  }

  /** The inner loop of `unpack_workloads` over the files of one group (setup.py:16-35). */
  method UnpackGroup(group: Group, files: QueryFiles) returns (r: Result<seq<SqlFile>>, count: nat)
    ensures r == GroupScripts(group.name, group.files, files)
    ensures r.Ok? ==> count == GroupCount(group.files)
  {
    var name, csvs := group.name, group.files;
    var scripts: seq<SqlFile> := [];
    count := 0;
    var i := 0;
    while i < |csvs|
      invariant 0 <= i <= |csvs|
      invariant GroupScripts(name, csvs[..i], files) == Ok(scripts)
      invariant count == GroupCount(csvs[..i])
    {
      var csv := csvs[i];
      if IsWorkloadCsv(csv.filename) {
        var contents, rows := UnpackCsv(csv.lines, files);
        GroupAdd(name, csvs, i, files, scripts, contents);
        if contents.Err? {
          GroupErrPrefix(name, csvs, i + 1, files);
          return Err(contents.error), count + rows;
        }
        scripts := scripts + [SqlFile(name, ReplaceAll(csv.filename, ".csv", ".sql"), contents.value)];
        count := count + rows;
      } else {
        GroupSkip(name, csvs, i, files);
      }
      i := i + 1;
    }
    assert csvs[..i] == csvs;
    r := Ok(scripts);
  }

  /** The scripts of one more group: its scripts appended, or its error. */
  lemma AllAdd(groups: seq<Group>, i: nat, files: QueryFiles, before: seq<SqlFile>, scripts: Result<seq<SqlFile>>)
    requires i < |groups| && AllScripts(groups[..i], files) == Ok(before)
    requires scripts == GroupScripts(groups[i].name, groups[i].files, files)
    ensures scripts.Err? ==> AllScripts(groups[..i + 1], files) == Err(scripts.error)
    ensures scripts.Ok? ==> AllScripts(groups[..i + 1], files) == Ok(before + scripts.value)
  {
    assert groups[..i + 1][..i] == groups[..i];
    assert groups[..i + 1][i] == groups[i];
  }

  /** `unpack_workloads` (setup.py:10-35) over the groups in the order they are visited. */
  method UnpackWorkloads(groups: seq<Group>, files: QueryFiles) returns (r: Result<seq<SqlFile>>, numQueries: map<string, nat>)
    ensures r == AllScripts(groups, files)
    ensures r.Ok? ==> numQueries == Counts(groups)
  {
    var scripts: seq<SqlFile> := [];
    numQueries := map[];
    var i := 0;
    while i < |groups|
      invariant 0 <= i <= |groups|
      invariant AllScripts(groups[..i], files) == Ok(scripts)
      invariant numQueries == Tally(groups[..i])
    {
      var g := groups[i];
      var groupScripts, count := UnpackGroup(g, files);
      AllAdd(groups, i, files, scripts, groupScripts);
      if groupScripts.Err? {
        AllErrPrefix(groups, i + 1, files);
        return Err(groupScripts.error), numQueries;
      }
      assert groups[..i + 1][..i] == groups[..i];
      numQueries := numQueries[g.name := (if g.name in numQueries then numQueries[g.name] else 0) + count];
      scripts := scripts + groupScripts.value;
      i := i + 1;
    }
    assert groups[..i] == groups;
    TallyCounts(groups);
    r := Ok(scripts);
  }

  /** Adding a group adds its row count to the entry of its name. */
  lemma CountsStep(groups: seq<Group>, i: nat, count: nat, before: map<string, nat>)
    requires i < |groups| && count == GroupCount(groups[i].files) && before == Counts(groups[..i])
    ensures Counts(groups[..i + 1]) ==
      before[groups[i].name := (if groups[i].name in before then before[groups[i].name] else 0) + count]
  {
    var front := groups[..i];
    var next := groups[..i + 1];
    var name := groups[i].name;
    assert next[..i] == front && next[i] == groups[i];
    assert Names(next) == Names(front) + {name} by {
      NamesStep(groups, i);
    }
    var after := before[name := (if name in before then before[name] else 0) + count];
    var counts := Counts(next);
    assert counts.Keys == after.Keys;
    forall x | x in counts ensures counts[x] == after[x] {
      assert Count(next, x) == Count(front, x) + (if x == name then count else 0);
      if x == name && name !in Names(front) {
        NewNameCount(front, name);
      }
    }
    SameMap(counts, after);
  }

  lemma SameMap(a: map<string, nat>, b: map<string, nat>)
    requires a.Keys == b.Keys && forall x :: x in a ==> a[x] == b[x]
    ensures a == b
  {
  }

  lemma NamesStep(groups: seq<Group>, i: nat)
    requires i < |groups|
    ensures Names(groups[..i + 1]) == Names(groups[..i]) + {groups[i].name}
  {
    var front := groups[..i];
    var next := groups[..i + 1];
    forall x | x in Names(next) ensures x in Names(front) + {groups[i].name} {
      var j :| 0 <= j < |next| && next[j].name == x;
      if j < i { assert front[j] == next[j]; }
    }
    forall x | x in Names(front) ensures x in Names(next) {
      var j :| 0 <= j < |front| && front[j].name == x;
      assert next[j] == front[j];
    }
    assert next[i] == groups[i];
  }

  lemma {:induction false} NewNameCount(groups: seq<Group>, name: string)
    requires name !in Names(groups)
    ensures Count(groups, name) == 0
  {
    if |groups| > 0 {
      var front := groups[..|groups| - 1];
      assert name !in Names(front) by {
        forall j | 0 <= j < |front| ensures front[j].name != name {
          assert front[j] == groups[j];
        }
      }
      assert groups[|groups| - 1].name != name;
      NewNameCount(front, name);
    }
  }

  /** Only lines after the header are unpacked, and statistics or non-CSV files contribute nothing. */
  lemma HeaderAndFilter(group: string, csv: CsvFile, files: QueryFiles)
    ensures !IsWorkloadCsv(csv.filename) ==> GroupScripts(group, [csv], files) == Ok([]) && GroupCount([csv]) == 0
    ensures IsWorkloadCsv(csv.filename) ==> GroupCount([csv]) == if |csv.lines| == 0 then 0 else |csv.lines| - 1
  {
    assert [csv][..0] == [];
  }
}
