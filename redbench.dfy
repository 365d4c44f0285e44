/**
 * The Redbench generator itself (src/redbench.py): an `Allocator` holds the
 * mutable maps `_sample_benchmark_for_user` creates for one user and changes
 * them in place exactly as `_sample_single_query` does, each method proved
 * against the allocation rules of module Allocation; the replay of a
 * timeline, the two files written per group and the choice of the sampled
 * users follow.
 */
module Redbench {
  import opened Wrappers
  import opened Strings
  import opened LibraryIndex
  import opened Utils
  import opened Allocation
  import opened ReplayFacts
  import opened Unpack

  /**
   * The five per-user maps of `_sample_benchmark_for_user` (src/redbench.py:154-163),
   * the user's counters of `sampling_stats` and the number of random draws so far.
   */
  class Allocator {
    const lib: Library
    const oracle: Oracle
    /** `ceb_template_to_unused_queries` */
    var unused: map<string, seq<string>>
    /** `num_joins_to_unmapped_ceb_templates` */
    var unmapped: map<int, seq<string>>
    /** `query_hash_to_ceb_query` */
    var cache: map<string, string>
    /** `readset_to_ceb_template` */
    var bindings: map<seq<int>, string>
    /** `sampling_stats[user_key]` */
    var counters: map<string, nat>
    var draws: nat

    /** The allocator's maps as a value. */
    function Current(): State
      reads this
    {
      State(unused, unmapped, cache, bindings, counters, draws)
    }

    /** Deep copies of the template pools and of the template lists, empty cache and bindings. */
    constructor (lib: Library, oracle: Oracle, counters: map<string, nat>, draws: nat)
      ensures this.lib == lib && this.oracle == oracle
      ensures Current() == Initial(lib, counters, draws)
    {
      this.lib := lib;
      this.oracle := oracle;
      unused := lib.queriesByTemplate;
      unmapped := lib.templatesByJoins;
      cache := map[];
      bindings := map[];
      this.counters := counters;
      this.draws := draws;
    }

    /**
     * `step_6` (src/redbench.py:212-236): shuffle a copy of the templates of
     * `n`, take the last unused instance of the first one that has any (6),
     * or else choose any query of `n` (7). The test of line 221 asks whether a
     * template name is a key of a map keyed by join counts, which it never is,
     * so it is left out of the condition.
     */
    method Step6(n: int) returns (r: Result<(string, Final)>)
      modifies this
      ensures var spec := Allocation.Step6(lib, old(Current()), n, oracle);
        && (spec.Ok? ==> r == Ok((spec.value.instance, spec.value.final)) && Current() == spec.value.state)
        && (spec.Err? ==> r == Err(spec.error))
    {
      if n !in lib.templatesByJoins {
        return Err(KeyError(IntToString(n)));
      }
      ghost var st := Current();
      var pool := oracle.shuffle(draws, lib.templatesByJoins[n]);
      draws := draws + 1;
      var i := 0;
      while i < |pool|
        invariant 0 <= i <= |pool|
        invariant unused == st.unused && unmapped == st.unmapped && cache == st.cache
        invariant bindings == st.bindings && counters == st.counters && draws == st.draws + 1
        invariant FirstWithPool(pool[i..], unused) == FirstWithPool(pool, unused)
      {
        var t := pool[i];
        assert pool[i..][1..] == pool[i + 1..];
        if t !in unused {
          return Err(KeyError(t));
        }
        if |unused[t]| > 0 {
          var instance := Last(unused[t]);
          unused := unused[t := Pop(unused[t])];
          return Ok((instance, Six));
        }
        i := i + 1;
      }
      if n !in lib.queriesByJoins {
        return Err(KeyError(IntToString(n)));
      }
      var queries := lib.queriesByJoins[n];
      if |queries| == 0 {
        return Err(IndexError("Cannot choose from an empty sequence"));
      }
      var k := oracle.choice(draws, |queries|) % |queries|;
      draws := draws + 1;
      r := Ok((queries[k], Seven));
    }

    /**
     * The scan of src/redbench.py:257-266: the candidate with strictly the
     * most unused instances, the first of them on a tie, and `None` with 0
     * when none has any. Nothing changes.
     */
    method BestCandidate(cands: seq<string>) returns (r: Result<Best>)
      ensures r == Scan(cands, unused)
    {
      var best: Option<string> := None;
      var bestValue: nat := 0;
      for i := 0 to |cands|
        invariant Scan(cands[..i], unused) == Ok(Best(best, bestValue))
      {
        var c := cands[i];
        assert cands[..i + 1][..i] == cands[..i];
        if c !in unused {
          ScanErrPrefix(cands, i + 1, unused);
          return Err(KeyError(c));
        }
        var thisValue := |unused[c]|;
        if thisValue > bestValue {
          bestValue := thisValue;
          best := Some(c);
        }
      }
      assert cands[..|cands|] == cands;
      r := Ok(Best(best, bestValue));
    }

    /**
     * The loop of src/redbench.py:280-289: `t` is removed from every list of
     * unbound templates that holds it, and the lists that held it are counted.
     */
    method RetireTemplate(t: string) returns (count: nat)
      modifies this
      ensures unmapped == Retire(old(unmapped), t)
      ensures count == |Holders(old(unmapped), t)|
      ensures unused == old(unused) && cache == old(cache) && bindings == old(bindings)
      ensures counters == old(counters) && draws == old(draws)
    {
      var lists := unmapped;
      ghost var before := unmapped;
      ghost var retired := Retire(before, t);
      ghost var holders := Holders(before, t);
      var remaining := lists.Keys;
      count := 0;
      while remaining != {}
        invariant RetiredOutside(before, retired, holders, remaining, lists, count)
        modifies {}
        decreases |remaining|
      {
        NonEmpty(remaining);
        var k :| k in remaining;
        var list := lists[k];
        assert retired[k] == (if t in before[k] then RemoveFirst(before[k], t) else before[k]);
        assert k in holders <==> t in before[k];
        RetireStep(before, retired, holders, t, remaining, lists, count, k);
        if t in list {
          lists := lists[k := RemoveFirst(list, t)];
          count := count + 1;
        }
        remaining := remaining - {k};
      }
      RetireDone(before, retired, holders, lists, count);
      unmapped := lists;
    }

    /**
     * `_sample_single_query` (src/redbench.py:192-310) on this allocator's
     * maps: the instance given to `q` (None for a new query that is not a
     * select), with every map changed as the allocation rules say.
     */
    method SampleSingleQuery(q: UserQuery) returns (r: Result<Option<string>>)
      modifies this
      ensures var spec := Sample(lib, old(Current()), q, oracle);
        && (spec.Ok? ==> r == Ok(spec.value.instance) && Current() == spec.value.state)
        && (spec.Err? ==> r == Err(spec.error))
    {
      var readset :- ReadsetOf(q.readTableIds);
      if q.queryHash in cache {
        return Ok(Some(cache[q.queryHash]));
      }
      if q.queryType != "select" {
        return Ok(None);
      }
      if readset.EmptyList? {
        return Err(TypeError("unhashable type: 'list'"));
      }
      var instance, path := Decide(q.numJoins, readset.ids);
      if instance.Err? {
        return Err(instance.error);
      }
      counters := Increment(counters, Label(path));
      cache := cache[q.queryHash := instance.value];
      r := Ok(Some(instance.value));
    }

    /**
     * The decision for a new select query with readset `ids`
     * (src/redbench.py:238-307): steps 2 and 3 for a bound readset, 4 and 5
     * for a new one; neither the cache nor the counters change yet.
     */
    method Decide(n: int, ids: seq<int>) returns (r: Result<string>, path: Path)
      modifies this
      ensures var spec := Choose(lib, old(Current()), n, Tuple(ids), oracle);
        && (spec.Ok? ==> r == Ok(spec.value.instance) && path == spec.value.path && Current() == spec.value.state)
        && (spec.Err? ==> r == Err(spec.error))
    {
      path := Reuse;
      if ids in bindings {
        var t := bindings[ids];
        if t !in unused {
          return Err(KeyError(t)), path;
        }
        if |unused[t]| > 0 {
          var instance := Last(unused[t]);
          unused := unused[t := Pop(unused[t])];
          return Ok(instance), Reuse;
        }
        var f := Step6(n);
        if f.Err? {
          return Err(f.error), path;
        }
        return Ok(f.value.0), BoundFallback(f.value.1);
      }
      if n !in unmapped {
        return Err(KeyError(IntToString(n))), path;
      }
      var best := BestCandidate(unmapped[n]);
      if best.Err? {
        return Err(best.error), path;
      }
      if best.value.value > 0 {
        var t := best.value.template.value;
        ghost var st := Current();
        var count := RetireTemplate(t);
        if count != 1 {
          return Err(AssertionError("The same template " + t + " produces different num_joins")), path;
        }
        bindings := bindings[ids := t];
        assert Current() == st.(unmapped := Retire(st.unmapped, t), bindings := st.bindings[ids := t]);
        var instance := Last(unused[t]);
        unused := unused[t := Pop(unused[t])];
        return Ok(instance), Bind;
      }
      var f := Step6(n);
      if f.Err? {
        return Err(f.error), path;
      }
      return Ok(f.value.0), UnboundFallback(f.value.1);
    }
  }

  /**
   * `_sample_benchmark_for_user` (src/redbench.py:147-190) without the
   * timeline query and the file write: fresh copies of the pools, then one
   * allocation per query of the timeline, in order, each giving one line of
   * the benchmark file; `num_queries` is rewritten after every line.
   */
  method SampleBenchmarkForUser(lib: Library, oracle: Oracle, user: UserInfo, timeline: seq<UserQuery>,
                                counters: map<string, nat>, draws: nat, normalize: real -> int)
    returns (r: Result<Run>)
    ensures r == SampleUser(lib, user, timeline, counters, draws, normalize, oracle)
  {
    if exists t :: t in lib.queriesByTemplate && |lib.queriesByTemplate[t]| == 0 {
      SampleUserEmptyPool(lib, user, timeline, counters, draws, normalize, oracle);
      return Err(AssertionError("not any([len(v) == 0 for _, v in ceb_template_to_unused_queries.items()])"));
    }
    var alloc := new Allocator(lib, oracle, counters, draws);
    ghost var start := alloc.Current();
    ghost var result := Replay(lib, user, timeline, start, normalize, oracle);
    SampleUserReplays(lib, user, timeline, counters, draws, normalize, oracle, start);
    var sampledBenchmark: seq<string> := [];
    var instances: seq<string> := [];
    for i := 0 to |timeline|
      invariant alloc.lib == lib && alloc.oracle == oracle
      invariant Replay(lib, user, timeline[..i], start, normalize, oracle) == Ok(Run(instances, sampledBenchmark, alloc.Current()))
    {
      var userQuery := timeline[i];
      ghost var before := Run(instances, sampledBenchmark, alloc.Current());
      var placed := ServeQuery(alloc, user, timeline, i, start, normalize, before);
      if placed.Err? {
        assert result == Err(placed.error);
        return Err(placed.error);
      }
      var (numJoins, instance) := placed.value;
      ghost var out := Sample(lib, before.state, userQuery.(numJoins := numJoins), oracle).value;
      ReplayExtend(lib, user, timeline, start, normalize, oracle, i, before, numJoins, out);
      sampledBenchmark := sampledBenchmark + [FormatRow(instance, userQuery.numJoins, numJoins, userQuery.queryId)];
      instances := instances + [instance];
      alloc.counters := alloc.counters["num_queries" := |sampledBenchmark|];
    }
    assert timeline[..|timeline|] == timeline;
    r := Ok(Run(instances, sampledBenchmark, alloc.Current()));
    assert result == r;
  }

  /**
   * One pass of the loop of `_sample_benchmark_for_user`
   * (src/redbench.py:170-181): normalise the join count of query `i` and
   * allocate it; either the query is placed, giving its normalised join count
   * and its instance, or the whole replay fails with the same error.
   */
  method ServeQuery(alloc: Allocator, user: UserInfo, timeline: seq<UserQuery>, i: nat, ghost start: State,
                    normalize: real -> int, ghost before: Run) returns (r: Result<(int, string)>)
    requires i < |timeline| && before.state == alloc.Current()
    requires Replay(alloc.lib, user, timeline[..i], start, normalize, alloc.oracle) == Ok(before)
    modifies alloc
    ensures r.Err? ==> Replay(alloc.lib, user, timeline, start, normalize, alloc.oracle) == Err(r.error)
    ensures r.Ok? ==> Normalized(user, timeline[i].numJoins, normalize) == Ok(r.value.0)
    ensures r.Ok? ==> Sample(alloc.lib, before.state, timeline[i].(numJoins := r.value.0), alloc.oracle)
                      == Ok(Outcome(Some(r.value.1), alloc.Current()))
  {
    var userQuery := timeline[i];
    var numJoins := Normalized(user, userQuery.numJoins, normalize);
    if numJoins.Err? {
      ReplayNormalizeFails(alloc.lib, user, timeline, start, normalize, alloc.oracle, i, before);
      return Err(numJoins.error);
    }
    var benchmarkQuery := alloc.SampleSingleQuery(userQuery.(numJoins := numJoins.value));
    if benchmarkQuery.Err? {
      ReplaySampleFails(alloc.lib, user, timeline, start, normalize, alloc.oracle, i, before, numJoins.value);
      return Err(benchmarkQuery.error);
    }
    if benchmarkQuery.value.None? {
      ReplayNoInstance(alloc.lib, user, timeline, start, normalize, alloc.oracle, i, before, numJoins.value);
      return Err(AssertionError("benchmark_query is not None"));
    }
    r := Ok((numJoins.value, benchmarkQuery.value.value));
  }

  lemma SampleUserEmptyPool(lib: Library, user: UserInfo, timeline: seq<UserQuery>, counters: map<string, nat>,
                            draws: nat, normalize: real -> int, oracle: Oracle)
    requires exists t :: t in lib.queriesByTemplate && |lib.queriesByTemplate[t]| == 0
    ensures SampleUser(lib, user, timeline, counters, draws, normalize, oracle)
      == Err(AssertionError("not any([len(v) == 0 for _, v in ceb_template_to_unused_queries.items()])"))
  {
  }

  lemma SampleUserReplays(lib: Library, user: UserInfo, timeline: seq<UserQuery>, counters: map<string, nat>,
                          draws: nat, normalize: real -> int, oracle: Oracle, start: State)
    requires !exists t :: t in lib.queriesByTemplate && |lib.queriesByTemplate[t]| == 0
    requires start == Initial(lib, counters, draws)
    ensures SampleUser(lib, user, timeline, counters, draws, normalize, oracle) == Replay(lib, user, timeline, start, normalize, oracle)
  {
  }

  // ---------------------------------------------------------------- the benchmark file

  /** The columns of a benchmark file, which its header line lists (src/redbench.py:352). */
  const BenchmarkColumns: seq<string> := ["filepath", "num_joins_in_user_query", "num_joins_in_benchmark_query", "query_id"]

  const CsvHeader := Join(BenchmarkColumns, ",") + "\n"

  /** `_write_benchmark_file_to_disk` (src/redbench.py:349-359): the header, then the lines joined by newlines. */
  function BenchmarkFile(lines: seq<string>): string {
    CsvHeader + Join(lines, "\n")
  }

  /** A benchmark line starts with its instance and a comma and is one line of text. */
  lemma FormatRowShape(instance: string, rawJoins: int, numJoins: int, queryId: int)
    requires '\n' !in instance
    ensures StartsWith(FormatRow(instance, rawJoins, numJoins, queryId), instance + ",")
    ensures '\n' !in FormatRow(instance, rawJoins, numJoins, queryId)
  {
    var line := FormatRow(instance, rawJoins, numJoins, queryId);
    IntToStringChars(rawJoins);
    IntToStringChars(numJoins);
    IntToStringChars(queryId);
    var fields := [instance, IntToString(rawJoins), IntToString(numJoins), IntToString(queryId)];
    assert Join(fields[2..], ",") == IntToString(numJoins) + "," + Join(fields[3..], ",");
    assert Join(fields[1..], ",") == IntToString(rawJoins) + "," + Join(fields[2..], ",");
    assert line == Join(fields, ",");
    assert forall p :: p in fields ==> '\n' !in p;
    JoinLacks(fields, ",", '\n');
    var tail := IntToString(rawJoins) + "," + IntToString(numJoins) + "," + IntToString(queryId);
    assert line == (instance + ",") + tail;
  }

  /** The path field of a line that starts with a comma-free instance and a comma is that instance. */
  lemma PathFieldOf(instance: string, line: string, ending: string)
    requires StartsWith(line, instance + ",") && ',' !in instance
    ensures PathField(line + ending) == instance
  {
    var rest := line[|instance| + 1..] + ending;
    assert line + ending == instance + [','] + rest;
    SplitAtChar(instance, ',', rest);
  }

  /**
   * The rows `unpack_workloads` reads back from a benchmark file
   * (setup.py:22-26) are the written lines, in order, and the path field of
   * each is the instance of that line.
   */
  lemma {:induction false} BenchmarkFileRows(lines: seq<string>, instances: seq<string>)
    requires |lines| == |instances|
    requires forall i :: 0 <= i < |lines| ==> StartsWith(lines[i], instances[i] + ",") && '\n' !in lines[i]
    requires forall i :: 0 <= i < |instances| ==> ',' !in instances[i]
    ensures var rows := Workload(ReadLines(BenchmarkFile(lines)));
            |rows| == |lines| &&
            (forall i :: 0 <= i < |rows| ==> rows[i] == lines[i] + (if i < |lines| - 1 then "\n" else "")) &&
            (forall i :: 0 <= i < |rows| ==> PathField(rows[i]) == instances[i])
  {
    var header := Join(BenchmarkColumns, ",");
    assert '\n' !in header by {
      forall p | p in BenchmarkColumns ensures '\n' !in p {}
      JoinLacks(BenchmarkColumns, ",", '\n');
    }
    RowsOfFile(header, lines, instances, BenchmarkFile(lines));
  }

  /** The rows after the header line of a file holding a header and the lines. */
  lemma RowsOfFile(header: string, lines: seq<string>, instances: seq<string>, file: string)
    requires '\n' !in header && file == header + "\n" + Join(lines, "\n")
    requires |lines| == |instances|
    requires forall i :: 0 <= i < |lines| ==> StartsWith(lines[i], instances[i] + ",") && '\n' !in lines[i]
    requires forall i :: 0 <= i < |instances| ==> ',' !in instances[i]
    ensures var rows := Workload(ReadLines(file));
            |rows| == |lines| &&
            (forall i :: 0 <= i < |rows| ==> rows[i] == lines[i] + (if i < |lines| - 1 then "\n" else "")) &&
            (forall i :: 0 <= i < |rows| ==> PathField(rows[i]) == instances[i])
  {
    var n := |lines|;
    if n == 0 {
      ReadLinesOne(header);
      assert file == header + "\n";
      assert Workload([header + "\n"]) == [];
    } else {
      assert lines[n - 1] != "" by {
        assert StartsWith(lines[n - 1], instances[n - 1] + ",");
      }
      var parts := [header] + lines;
      ReadParts(header, lines, parts, file);
      ReadBack(header, lines, parts, file);
      RowsOfLines(lines, instances, Workload(ReadLines(file)));
    }
  }

  /** The lines, each but the last with its newline, row by row. */
  lemma RowsOfLines(lines: seq<string>, instances: seq<string>, rows: seq<string>)
    requires |lines| >= 1 && |lines| == |instances|
    requires forall i :: 0 <= i < |lines| ==> StartsWith(lines[i], instances[i] + ",")
    requires forall i :: 0 <= i < |instances| ==> ',' !in instances[i]
    requires rows == Terminated(lines[..|lines| - 1]) + [lines[|lines| - 1]]
    ensures |rows| == |lines|
    ensures forall i :: 0 <= i < |rows| ==> rows[i] == lines[i] + (if i < |lines| - 1 then "\n" else "")
    ensures forall i :: 0 <= i < |rows| ==> PathField(rows[i]) == instances[i]
  {
    var n := |lines|;
    forall i | 0 <= i < |rows|
      ensures rows[i] == lines[i] + (if i < n - 1 then "\n" else "")
      ensures PathField(rows[i]) == instances[i]
    {
      if i < n - 1 {
        assert rows[i] == Terminated(lines[..n - 1])[i];
      } else {
        assert lines[i] + "" == lines[i];
      }
      PathFieldOf(instances[i], lines[i], if i < n - 1 then "\n" else "");
    }
  }

  /** Dropping the header line from what is read back: the lines, each but the last with its newline. */
  lemma ReadBack(header: string, lines: seq<string>, parts: seq<string>, file: string)
    requires |lines| >= 1 && parts == [header] + lines
    requires ReadLines(file) == Terminated(parts[..|parts| - 1]) + [lines[|lines| - 1]]
    ensures Workload(ReadLines(file)) == Terminated(lines[..|lines| - 1]) + [lines[|lines| - 1]]
  {
    var n := |lines|;
    TerminatedInit(header, lines, parts);
    DropHead(header + "\n", Terminated(lines[..n - 1]), lines[n - 1]);
  }

  /** Every part but the last with its newline: the header line, then every line but the last. */
  lemma TerminatedInit(header: string, lines: seq<string>, parts: seq<string>)
    requires parts == [header] + lines && |lines| >= 1
    ensures Terminated(parts[..|parts| - 1]) == [header + "\n"] + Terminated(lines[..|lines| - 1])
  {
    assert parts[..|parts| - 1] == [header] + lines[..|lines| - 1];
    TerminatedCons(header, lines[..|lines| - 1]);
  }

  /** Reading back the header and the lines joined by newlines. */
  lemma ReadParts(header: string, lines: seq<string>, parts: seq<string>, file: string)
    requires |lines| >= 1 && lines[|lines| - 1] != "" && '\n' !in header
    requires forall i :: 0 <= i < |lines| ==> '\n' !in lines[i]
    requires parts == [header] + lines && file == header + "\n" + Join(lines, "\n")
    ensures ReadLines(file) == Terminated(parts[..|parts| - 1]) + [lines[|lines| - 1]]
  {
    JoinCons(header, lines, "\n");
    PartsLackNewline(header, lines, parts);
    ReadLinesJoin(parts);
  }

  lemma PartsLackNewline(header: string, lines: seq<string>, parts: seq<string>)
    requires '\n' !in header && forall i :: 0 <= i < |lines| ==> '\n' !in lines[i]
    requires parts == [header] + lines && |lines| >= 1 && lines[|lines| - 1] != ""
    ensures forall p :: p in parts ==> '\n' !in p
    ensures |parts| >= 1 && parts[|parts| - 1] != "" && parts[|parts| - 1] == lines[|lines| - 1]
  {
    forall p | p in parts ensures '\n' !in p {
      var k :| 0 <= k < |parts| && parts[k] == p;
      if k > 0 { assert p == lines[k - 1]; }
    }
  }

  lemma TerminatedCons(x: string, xs: seq<string>)
    ensures Terminated([x] + xs) == [x + "\n"] + Terminated(xs)
  {
  }

  lemma DropHead(x: string, ys: seq<string>, z: string)
    ensures |[x] + ys + [z]| >= 1 && Workload([x] + ys + [z]) == ys + [z]
  {
    assert ([x] + ys + [z])[1..] == ys + [z];
  }

  /**
   * Unpacking a written benchmark recovers, row by row and in timeline
   * order, the instances the allocator chose, provided the library paths
   * hold no comma and no newline.
   */
  lemma WrittenBenchmarkUnpacks(lib: Library, user: UserInfo, timeline: seq<UserQuery>, start: State,
                                normalize: real -> int, oracle: Oracle)
    requires Replay(lib, user, timeline, start, normalize, oracle).Ok?
    requires var run := Replay(lib, user, timeline, start, normalize, oracle).value;
             forall i :: 0 <= i < |run.instances| ==> ',' !in run.instances[i] && '\n' !in run.instances[i]
    ensures var run := Replay(lib, user, timeline, start, normalize, oracle).value;
            var rows := Workload(ReadLines(BenchmarkFile(run.lines)));
            |rows| == |timeline| && forall i :: 0 <= i < |rows| ==> PathField(rows[i]) == run.instances[i]
  {
    var run := Replay(lib, user, timeline, start, normalize, oracle).value;
    ReplayLines(lib, user, timeline, start, normalize, oracle);
    forall i | 0 <= i < |run.lines|
      ensures StartsWith(run.lines[i], run.instances[i] + ",") && '\n' !in run.lines[i]
    {
      var q := timeline[i];
      FormatRowShape(run.instances[i], q.numJoins, Normalized(user, q.numJoins, normalize).value, q.queryId);
    }
    BenchmarkFileRows(run.lines, run.instances);
  }

  /** The file name of a user's benchmark is one `unpack_workloads` processes unless the workload type is `stats`. */
  lemma BenchmarkFileUnpacked(workloadType: string)
    ensures IsWorkloadCsv(workloadType + ".csv") <==> workloadType != "stats"
  {
    var name := workloadType + ".csv";
    assert name[|name| - 4..] == ".csv";
    if name == "stats.csv" {
      assert workloadType == name[..|name| - 4] == "stats";
    }
  }

  // ---------------------------------------------------------------- the sampled users of a group

  /** The workload types `_sample_users` gives its three picks, in the order it assigns them. */
  const WorkloadTypes: seq<string> := ["low_variability", "mid_variability", "high_variability"]

  /**
   * The first, middle and last of the ranked users of a group
   * (src/redbench.py:82-85): the index of each pick and the workload type it
   * ends up with. Picks that share an index are one record, so a later label
   * overwrites an earlier one.
   */
  function PickSample(count: nat): (r: Result<seq<(nat, string)>>)
    ensures r.Err? <==> count == 0
    ensures r.Ok? ==>
      && |r.value| == 3
      && r.value[0].0 == 0 && r.value[1].0 == count / 2 && r.value[2].0 == count - 1
      && r.value[0].0 <= r.value[1].0 <= r.value[2].0 < count
      && r.value[2].1 == "high_variability"
  {
    if count == 0 then Err(IndexError("list index out of range"))
    else
      var picks := [0, count / 2, count - 1];
      var types := map[picks[0] := WorkloadTypes[0]][picks[1] := WorkloadTypes[1]][picks[2] := WorkloadTypes[2]];
      Ok([(picks[0], types[picks[0]]), (picks[1], types[picks[1]]), (picks[2], types[picks[2]])])
  }

  /**
   * From three users on, the picks are three different users labelled low,
   * mid and high; with one user all three picks are that user labelled high,
   * and with two the first user is low and the second is both mid and high,
   * so high.
   */
  lemma PickSampleLabels(count: nat)
    requires count > 0
    ensures count >= 3 ==>
      var picks := PickSample(count).value;
      && picks[0].0 < picks[1].0 < picks[2].0
      && [picks[0].1, picks[1].1, picks[2].1] == WorkloadTypes
    ensures count == 1 ==> PickSample(count) == Ok([(0, "high_variability"), (0, "high_variability"), (0, "high_variability")])
    ensures count == 2 ==> PickSample(count) == Ok([(0, "low_variability"), (1, "high_variability"), (1, "high_variability")])
  {
  }

  /**
   * Part way through the loop of src/redbench.py:280-289: the join counts not
   * yet visited keep their lists, the visited ones have their `retired`
   * lists, and `count` is the number of visited `holders`.
   */
  ghost predicate RetiredOutside(before: map<int, seq<string>>, retired: map<int, seq<string>>, holders: set<int>,
                                 remaining: set<int>, lists: map<int, seq<string>>, count: nat)
  {
    && remaining <= before.Keys && lists.Keys == before.Keys && retired.Keys == before.Keys
    && (forall k :: k in remaining ==> lists[k] == before[k])
    && (forall k :: k in before && k !in remaining ==> lists[k] == retired[k])
    && count == |holders - remaining|
  }

  /** Visiting one more join count keeps `RetiredOutside`. */
  lemma RetireStep(before: map<int, seq<string>>, retired: map<int, seq<string>>, holders: set<int>, t: string,
                   remaining: set<int>, lists: map<int, seq<string>>, count: nat, k: int)
    requires RetiredOutside(before, retired, holders, remaining, lists, count) && k in remaining
    requires retired[k] == (if t in before[k] then RemoveFirst(before[k], t) else before[k])
    requires k in holders <==> t in before[k]
    ensures t in lists[k] ==>
      RetiredOutside(before, retired, holders, remaining - {k}, lists[k := RemoveFirst(lists[k], t)], count + 1)
    ensures t !in lists[k] ==> RetiredOutside(before, retired, holders, remaining - {k}, lists, count)
  {
    VisitOne(holders, remaining, k);
  }

  /** Visiting `k` adds one to the holders counted exactly when `k` is a holder. */
  lemma VisitOne(holders: set<int>, remaining: set<int>, k: int)
    requires k in remaining
    ensures k in holders ==> |holders - (remaining - {k})| == |holders - remaining| + 1
    ensures k !in holders ==> |holders - (remaining - {k})| == |holders - remaining|
  {
    if k in holders {
      assert holders - (remaining - {k}) == (holders - remaining) + {k};
    } else {
      assert holders - (remaining - {k}) == holders - remaining;
    }
  }

  /** Once every join count is visited, the lists are the retired ones and every holder is counted. */
  lemma RetireDone(before: map<int, seq<string>>, retired: map<int, seq<string>>, holders: set<int>,
                   lists: map<int, seq<string>>, count: nat)
    requires RetiredOutside(before, retired, holders, {}, lists, count)
    ensures lists == retired && count == |holders|
  {
    assert holders - {} == holders;
    SameLists(before, lists, retired);
  }

  lemma SameLists(before: map<int, seq<string>>, lists: map<int, seq<string>>, retired: map<int, seq<string>>)
    requires lists.Keys == before.Keys && retired.Keys == before.Keys
    requires forall k :: k in before ==> lists[k] == retired[k]
    ensures lists == retired
  {
    assert forall k :: k in lists <==> k in retired;
    assert forall k :: k in lists ==> lists[k] == retired[k];
  }

  /** A non-empty set of join counts has an element. */
  lemma NonEmpty(s: set<int>)
    requires s != {}
    ensures exists k :: k in s
  {
    if forall k :: k !in s {
      assert false;
    }
  }

  /** Once a prefix of the candidates fails the scan, the whole scan fails the same way. */
  lemma {:induction false} ScanErrPrefix(cands: seq<string>, i: nat, unused: map<string, seq<string>>)
    requires i <= |cands| && Scan(cands[..i], unused).Err?
    ensures Scan(cands, unused) == Scan(cands[..i], unused)
    decreases |cands|
  {
    if i < |cands| {
      var front := cands[..|cands| - 1];
      assert front[..i] == cands[..i];
      ScanErrPrefix(front, i, unused);
    } else {
      assert cands[..i] == cands;
    }
  }

}
