/**
 * `stats.csv` of a workload group, as `_dump_sampling_stats`
 * (src/redbench.py:312-347) writes it: a header naming the user columns and
 * one column per sampling path, then one row per sampled user.
 */
module Stats {
  import opened Wrappers
  import opened Strings
  import opened Utils
  import opened LibraryIndex
  import opened Allocation
  import opened ReplayFacts

  /** The statistics column of a sampling path: spaces dropped, arrows spelled out (src/redbench.py:320-323). */
  function Column(path: string): string {
    "n_occurrences_step_" + ReplaceAll(ReplaceAll(path, " ", ""), "->", "_to_")
  }

  /** The column of each path, in path order. */
  function Columns(paths: seq<string>): seq<string>
  {
    seq(|paths|, i requires 0 <= i < |paths| => Column(paths[i]))
  }

  /** The columns of `stats.csv` that describe the user (src/redbench.py:319). */
  const UserColumns: seq<string> := [
    "workload_type", "user_id", "instance_id", "number_of_queries", "query_repetition_rate",
    "n_distinct_num_joins", "n_distinct_readsets"]

  /** The header line of `stats.csv` (src/redbench.py:318-328): the user columns, then one column per sampling path. */
  function StatsHeader(): string {
    Join(UserColumns, ",") + "," + Join(Columns(Paths), ",") + "\n"
  }

  /** The six path columns of `stats.csv`, spelled out. */
  lemma PathColumns()
    ensures Columns(Paths) == [
      "n_occurrences_step_2", "n_occurrences_step_5",
      "n_occurrences_step_3_to_6", "n_occurrences_step_3_to_7",
      "n_occurrences_step_4_to_6", "n_occurrences_step_4_to_7"]
  {
    var cs := Columns(Paths);
    assert |cs| == 6;
    DigitPathColumn(0, '2');
    DigitPathColumn(1, '5');
    ArrowPathColumn(2, '3', '6');
    ArrowPathColumn(3, '3', '7');
    ArrowPathColumn(4, '4', '6');
    ArrowPathColumn(5, '4', '7');
    SixColumns(cs);
  }

  /** The column of a single-step path of `Paths`. */
  lemma DigitPathColumn(i: nat, a: char)
    requires i < |Paths| && Paths[i] == [a] && IsDigit(a)
    ensures Columns(Paths)[i] == "n_occurrences_step_" + [a]
  {
    DigitColumn(a);
  }

  /** The column of a transition path of `Paths`. */
  lemma ArrowPathColumn(i: nat, a: char, b: char)
    requires i < |Paths| && Paths[i] == [a, ' ', '-', '>', ' ', b] && IsDigit(a) && IsDigit(b)
    ensures Columns(Paths)[i] == "n_occurrences_step_" + [a, '_', 't', 'o', '_', b]
  {
    ArrowColumn(a, b);
  }

  /** The six column names with their parts joined. */
  lemma SixColumns(cs: seq<string>)
    requires |cs| == 6
    requires cs[0] == "n_occurrences_step_" + ['2'] && cs[1] == "n_occurrences_step_" + ['5']
    requires cs[2] == "n_occurrences_step_" + ['3', '_', 't', 'o', '_', '6']
    requires cs[3] == "n_occurrences_step_" + ['3', '_', 't', 'o', '_', '7']
    requires cs[4] == "n_occurrences_step_" + ['4', '_', 't', 'o', '_', '6']
    requires cs[5] == "n_occurrences_step_" + ['4', '_', 't', 'o', '_', '7']
    ensures cs == [
      "n_occurrences_step_2", "n_occurrences_step_5",
      "n_occurrences_step_3_to_6", "n_occurrences_step_3_to_7",
      "n_occurrences_step_4_to_6", "n_occurrences_step_4_to_7"]
  {
    assert cs[0] == "n_occurrences_step_2";
    assert cs[1] == "n_occurrences_step_5";
    assert cs[2] == "n_occurrences_step_3_to_6";
    assert cs[3] == "n_occurrences_step_3_to_7";
    assert cs[4] == "n_occurrences_step_4_to_6";
    assert cs[5] == "n_occurrences_step_4_to_7";
    assert cs == [cs[0], cs[1], cs[2], cs[3], cs[4], cs[5]];
  }

  /** A single-step path names its column by its digit. */
  lemma DigitColumn(a: char)
    requires IsDigit(a)
    ensures Column([a]) == "n_occurrences_step_" + [a]
  {
    SplitNoChar([a], ' ');
    assert Split([a], " ") == [[a]];
    NotContainsByChar([a], "->", '-');
    SplitAbsent([a], "->");
  }

  /** A two-step path `a -> b` names its column `a_to_b`. */
  lemma ArrowColumn(a: char, b: char)
    requires IsDigit(a) && IsDigit(b)
    ensures Column([a, ' ', '-', '>', ' ', b]) == "n_occurrences_step_" + [a, '_', 't', 'o', '_', b]
  {
    DropSpaces(a, b);
    SpellArrow(a, b);
    assert [a, ' ', '-', '>', ' ', b] == [a] + " -> " + [b];
    assert [a] + "_to_" + [b] == [a, '_', 't', 'o', '_', b];
  }

  lemma DropSpaces(a: char, b: char)
    requires IsDigit(a) && IsDigit(b)
    ensures ReplaceAll([a] + " -> " + [b], " ", "") == [a] + "->" + [b]
  {
    var path := [a] + " -> " + [b];
    assert path == [a] + [' '] + ("->" + [' '] + [b]);
    SplitAtChar([a], ' ', "->" + [' '] + [b]);
    SplitAtChar("->", ' ', [b]);
    SplitNoChar([b], ' ');
    assert Split(path, " ") == [[a], "->", [b]];
    assert Join([[a], "->", [b]], "") == [a] + "" + Join(["->", [b]], "");
    assert Join(["->", [b]], "") == "->" + "" + [b];
  }

  lemma SpellArrow(a: char, b: char)
    requires IsDigit(a) && IsDigit(b)
    ensures ReplaceAll([a] + "->" + [b], "->", "_to_") == [a] + "_to_" + [b]
  {
    var squeezed := [a] + "->" + [b];
    assert !OccursAt(squeezed, "->", 0) by { assert squeezed[0] == a; }
    SplitAt([a], "->", [b]);
    NotContainsByChar([b], "->", '-');
    SplitAbsent([b], "->");
    assert Split(squeezed, "->") == [[a], [b]];
    assert Join([[a], [b]], "_to_") == [a] + "_to_" + [b];
  }

  /** A column name has a comma only if its path has one. */
  lemma ColumnLacksComma(path: string)
    requires ',' !in path
    ensures ',' !in Column(path)
  {
    ReplaceLacks(path, " ", "", ',');
    ReplaceLacks(ReplaceAll(path, " ", ""), "->", "_to_", ',');
  }

  /** Every column of `stats.csv`: the header splits at its commas into the user columns and the path columns. */
  lemma StatsHeaderColumns()
    ensures StatsHeader() == Join(UserColumns + Columns(Paths), ",") + "\n"
    ensures Split(Join(UserColumns + Columns(Paths), ","), ",") == UserColumns + Columns(Paths)
    ensures |UserColumns + Columns(Paths)| == 7 + |Paths|
  {
    UserColumnsLackComma();
    PathsLackComma();
    HeaderFields(UserColumns, Paths, StatsHeader());
  }

  lemma PathsLackComma()
    ensures |Paths| == 6 && forall i :: 0 <= i < |Paths| ==> ',' !in Paths[i]
  {
  }

  lemma UserColumnsLackComma()
    ensures |UserColumns| == 7 && forall i :: 0 <= i < |UserColumns| ==> ',' !in UserColumns[i]
  {
  }

  lemma HeaderFields(users: seq<string>, paths: seq<string>, header: string)
    requires |users| >= 1 && forall i :: 0 <= i < |users| ==> ',' !in users[i]
    requires |paths| >= 1 && forall i :: 0 <= i < |paths| ==> ',' !in paths[i]
    requires header == Join(users, ",") + "," + Join(Columns(paths), ",") + "\n"
    ensures header == Join(users + Columns(paths), ",") + "\n"
    ensures Split(Join(users + Columns(paths), ","), ",") == users + Columns(paths)
  {
    var columns := Columns(paths);
    JoinAppend(users, columns, ",");
    var all := users + columns;
    assert forall p :: p in all ==> ',' !in p by {
      FieldsLackCommaOf(users, columns, paths);
    }
    JoinSplit(all, ',');
  }

  lemma FieldsLackCommaOf(users: seq<string>, columns: seq<string>, paths: seq<string>)
    requires forall i :: 0 <= i < |users| ==> ',' !in users[i]
    requires forall i :: 0 <= i < |paths| ==> ',' !in paths[i]
    requires columns == Columns(paths)
    ensures forall p :: p in users + columns ==> ',' !in p
  {
    var all := users + columns;
    forall k | 0 <= k < |all| ensures ',' !in all[k] {
      if k < |users| {
        assert all[k] == users[k];
      } else {
        assert all[k] == Column(paths[k - |users|]);
        ColumnLacksComma(paths[k - |users|]);
      }
    }
  }

  // ---------------------------------------------------------------- rows

  /**
   * What `_dump_sampling_stats` reads of a sampled user. The repetition rate
   * arrives already formatted with three decimals.
   */
  datatype SampledUser = SampledUser(userKey: string, workloadType: string, repetitionRate: string,
                                     numDistinctNumJoins: int, numDistinctReadsets: int)

  /** The count of every path, in path order. */
  function CountFields(counters: map<string, nat>, paths: seq<string>): seq<string>
  {
    seq(|paths|, i requires 0 <= i < |paths| => IntToString(Count(counters, paths[i])))
  }

  /** Each count field reads back, with `int()`, as the count of its path. */
  lemma CountFieldsParse(counters: map<string, nat>, paths: seq<string>)
    ensures |CountFields(counters, paths)| == |paths|
    ensures forall i :: 0 <= i < |paths| ==> ParseInt(CountFields(counters, paths)[i]) == Some(Count(counters, paths[i]) as int)
  {
    forall i | 0 <= i < |paths|
      ensures ParseInt(CountFields(counters, paths)[i]) == Some(Count(counters, paths[i]) as int)
    {
      IntRoundTrip(Count(counters, paths[i]));
    }
  }

  /** `"," + str(value)` written for each path in turn (src/redbench.py:343-346). */
  function PathCounts(counters: map<string, nat>, paths: seq<string>): string
    decreases |paths|
  {
    if |paths| == 0 then ""
    else PathCounts(counters, paths[..|paths| - 1]) + "," + IntToString(Count(counters, paths[|paths| - 1]))
  }

  /** The user columns of a row. */
  function UserFields(user: SampledUser, key: UserKey, counters: map<string, nat>): seq<string> {
    [user.workloadType, IntToString(key.userId), IntToString(key.instanceId),
     IntToString(Count(counters, "num_queries")), user.repetitionRate,
     IntToString(user.numDistinctNumJoins), IntToString(user.numDistinctReadsets)]
  }

  /**
   * One row of `stats.csv` (src/redbench.py:329-347). The key is parsed as
   * `parse_user_key` does, and fails the same way. A user missing from
   * `sampling_stats` reads as all zeros, as the nested defaultdict gives.
   */
  function StatsRow(user: SampledUser, stats: map<string, map<string, nat>>): (r: Result<string>)
    ensures r.Err? <==> ParseUserKey(user.userKey).Err?
  {
    var key :- ParseUserKey(user.userKey);
    var counters := if user.userKey in stats then stats[user.userKey] else map[];
    Ok(Join(UserFields(user, key, counters), ",") + PathCounts(counters, Paths) + "\n")
  }

  /** `stats.csv` of a group: the header, then a row per sampled user in order. */
  function StatsFile(users: seq<SampledUser>, stats: map<string, map<string, nat>>): (r: Result<string>)
    decreases |users|
  {
    if |users| == 0 then Ok(StatsHeader())
    else
      var front :- StatsFile(users[..|users| - 1], stats);
      var row :- StatsRow(users[|users| - 1], stats);
      Ok(front + row)
  }

  /** The file fails exactly when the key of some sampled user does not parse. */
  lemma {:induction false} StatsFileFails(users: seq<SampledUser>, stats: map<string, map<string, nat>>)
    ensures StatsFile(users, stats).Err? <==> SomeBadKey(users)
    decreases |users|
  {
    if |users| > 0 {
      StatsFileFails(users[..|users| - 1], stats);
      BadKeyStep(users);
      StatsFileStep(users, stats);
    }
  }

  /** Some sampled user has a key `parse_user_key` rejects. */
  ghost predicate SomeBadKey(users: seq<SampledUser>) {
    AnySatisfies(users, BadKey)
  }

  /** The key of `user` does not parse. */
  predicate BadKey(user: SampledUser) {
    ParseUserKey(user.userKey).Err?
  }

  /** Some element of `xs` satisfies `p`. */
  ghost predicate AnySatisfies<T>(xs: seq<T>, p: T -> bool) {
    exists i :: 0 <= i < |xs| && p(xs[i])
  }

  lemma BadKeyStep(users: seq<SampledUser>)
    requires |users| > 0
    ensures SomeBadKey(users) <==> SomeBadKey(users[..|users| - 1]) || BadKey(users[|users| - 1])
  {
    AnySatisfiesStep(users, BadKey);
  }

  lemma AnySatisfiesStep<T>(xs: seq<T>, p: T -> bool)
    requires |xs| > 0
    ensures AnySatisfies(xs, p) <==> AnySatisfies(xs[..|xs| - 1], p) || p(xs[|xs| - 1])
  {
    var front := xs[..|xs| - 1];
    if AnySatisfies(front, p) {
      var i :| 0 <= i < |front| && p(front[i]);
      assert xs[i] == front[i];
    }
    if AnySatisfies(xs, p) {
      var i :| 0 <= i < |xs| && p(xs[i]);
      if i < |front| { assert front[i] == xs[i]; }
    }
    var j := |xs| - 1;
    if p(xs[j]) {
      assert 0 <= j < |xs| && p(xs[j]);
    }
  }

  lemma StatsFileStep(users: seq<SampledUser>, stats: map<string, map<string, nat>>)
    requires |users| > 0
    ensures StatsFile(users, stats).Err? <==>
      StatsFile(users[..|users| - 1], stats).Err? || BadKey(users[|users| - 1])
  {
  }

  /** Writing the counts one by one is joining them after the user columns. */
  lemma {:induction false} PathCountsJoin(fields: seq<string>, counters: map<string, nat>, paths: seq<string>)
    requires |fields| >= 1
    ensures Join(fields, ",") + PathCounts(counters, paths) == Join(fields + CountFields(counters, paths), ",")
    decreases |paths|
  {
    if |paths| == 0 {
      assert fields + CountFields(counters, paths) == fields;
    } else {
      var front := paths[..|paths| - 1];
      var last := IntToString(Count(counters, paths[|paths| - 1]));
      var before := fields + CountFields(counters, front);
      PathCountsJoin(fields, counters, front);
      JoinSnoc(before, last, ",");
      assert fields + CountFields(counters, paths) == before + [last] by {
        CountFieldsSnoc(counters, paths);
      }
      assert PathCounts(counters, paths) == PathCounts(counters, front) + "," + last;
      Regroup(Join(fields, ","), PathCounts(counters, front), last);
    }
  }

  lemma Regroup(x: string, y: string, z: string)
    ensures x + (y + "," + z) == x + y + "," + z
  {
  }

  lemma CountFieldsSnoc(counters: map<string, nat>, paths: seq<string>)
    requires |paths| > 0
    ensures CountFields(counters, paths) == CountFields(counters, paths[..|paths| - 1]) + [IntToString(Count(counters, paths[|paths| - 1]))]
  {
  }

  /**
   * A row splits at its commas into the user columns and one count per path,
   * as many fields as the header has, provided the workload type and the rate
   * hold no comma.
   */
  lemma StatsRowFields(user: SampledUser, stats: map<string, map<string, nat>>)
    requires StatsRow(user, stats).Ok?
    requires ',' !in user.workloadType && ',' !in user.repetitionRate
    ensures var row := StatsRow(user, stats).value;
            var key := ParseUserKey(user.userKey).value;
            var counters := if user.userKey in stats then stats[user.userKey] else map[];
            && |row| > 0 && row[|row| - 1] == '\n'
            && Split(row[..|row| - 1], ",") == UserFields(user, key, counters) + CountFields(counters, Paths)
            && |UserFields(user, key, counters) + CountFields(counters, Paths)| == |UserColumns + Columns(Paths)|
  {
    var row := StatsRow(user, stats).value;
    var key := ParseUserKey(user.userKey).value;
    var counters := if user.userKey in stats then stats[user.userKey] else map[];
    var fields := UserFields(user, key, counters) + CountFields(counters, Paths);
    PathCountsJoin(UserFields(user, key, counters), counters, Paths);
    assert row == Join(fields, ",") + "\n";
    assert row[..|row| - 1] == Join(fields, ",");
    FieldsLackComma(user, key, counters);
    JoinSplit(fields, ',');
  }

  lemma FieldsLackComma(user: SampledUser, key: UserKey, counters: map<string, nat>)
    requires ',' !in user.workloadType && ',' !in user.repetitionRate
    ensures forall p :: p in UserFields(user, key, counters) + CountFields(counters, Paths) ==> ',' !in p
  {
    var front := UserFields(user, key, counters);
    var counts := CountFields(counters, Paths);
    IntToStringChars(key.userId);
    IntToStringChars(key.instanceId);
    IntToStringChars(Count(counters, "num_queries"));
    IntToStringChars(user.numDistinctNumJoins);
    IntToStringChars(user.numDistinctReadsets);
    assert forall p :: p in front ==> ',' !in p;
    forall k | 0 <= k < |counts| ensures ',' !in counts[k] {
      IntToStringChars(Count(counters, Paths[k]));
    }
  }

  /**
   * The row of a user whose statistics are those a replay of its whole
   * timeline left: its `number_of_queries` is the length of the timeline and
   * its path columns are the replay's counters, path by path.
   */
  lemma StatsRowOfRun(lib: Library, info: UserInfo, timeline: seq<UserQuery>, start: State,
                      normalize: real -> int, oracle: Oracle, user: SampledUser, stats: map<string, map<string, nat>>)
    requires Replay(lib, info, timeline, start, normalize, oracle).Ok? && |timeline| > 0
    requires user.userKey in stats && stats[user.userKey] == Replay(lib, info, timeline, start, normalize, oracle).value.state.counters
    requires StatsRow(user, stats).Ok? && ',' !in user.workloadType && ',' !in user.repetitionRate
    ensures var row := StatsRow(user, stats).value;
            var key := ParseUserKey(user.userKey).value;
            var counters := stats[user.userKey];
            && Split(row[..|row| - 1], ",") == UserFields(user, key, counters) + CountFields(counters, Paths)
            && UserFields(user, key, counters)[3] == IntToString(|timeline|)
  {
    ReplayCounts(lib, info, timeline, start, normalize, oracle);
    StatsRowFields(user, stats);
  }
}
