/**
 * The per-user readset statistics of src/user_stats.py (`_second_agg_step`):
 * every query of the trace contributes its readset, the sorted tuple of its
 * table ids as strings, to the set of its user; each user then gets the number
 * of distinct readsets and the number of distinct readset sizes.
 */
module UserStats {
  import opened Wrappers
  import opened Strings
  import opened Sorting

  /** One row of the trace: who ran it and the tables it read. */
  datatype TraceQuery = TraceQuery(userKey: string, readTableIds: Option<string>)

  type Readset = seq<string>

  /** `tuple(sorted(read_table_ids.split(",")))`: the ids stay strings and sort as strings. */
  function ReadsetKey(readTableIds: string): (r: Readset)
  {
    Sort(Split(readTableIds, ","), StringLe)
  }

  lemma ReadsetKeyFacts(readTableIds: string)
    ensures SortedBy(ReadsetKey(readTableIds), StringLe)
    ensures multiset(ReadsetKey(readTableIds)) == multiset(Split(readTableIds, ","))
    ensures |ReadsetKey(readTableIds)| >= 1
  {
    StringLeTotal();
    SortSorted(Split(readTableIds, ","), StringLe);
    assert |ReadsetKey(readTableIds)| == |multiset(ReadsetKey(readTableIds))|;
  }

  /** The readsets of `user` among the first `n` queries. */
  ghost function ReadsetsUpTo(queries: seq<TraceQuery>, n: nat, user: string): set<Readset>
    requires n <= |queries|
    requires forall i :: 0 <= i < n ==> queries[i].readTableIds.Some?
  {
    if n == 0 then {}
    else
      var own := if queries[n - 1].userKey == user then {ReadsetKey(queries[n - 1].readTableIds.value)} else {};
      ReadsetsUpTo(queries, n - 1, user) + own
  }

  /** The users among the first `n` queries. */
  ghost function UsersUpTo(queries: seq<TraceQuery>, n: nat): set<string>
    requires n <= |queries|
  {
    set i | 0 <= i < n :: queries[i].userKey
  }

  /** A readset belongs to a user exactly when one of the user's queries has it. */
  lemma {:induction false} ReadsetsUpToMembers(queries: seq<TraceQuery>, n: nat, user: string, r: Readset)
    requires n <= |queries|
    requires forall i :: 0 <= i < n ==> queries[i].readTableIds.Some?
    ensures r in ReadsetsUpTo(queries, n, user) <==>
      exists i :: 0 <= i < n && queries[i].userKey == user && ReadsetKey(queries[i].readTableIds.value) == r
  {
    if n > 0 {
      ReadsetsUpToMembers(queries, n - 1, user, r);
    }
  }

  /**
   * The loop of `_second_agg_step` (src/user_stats.py:71-75): the readsets of
   * every user, or the assertion failure of the first query without tables.
   */
  method CollectReadsets(queries: seq<TraceQuery>) returns (r: Result<map<string, set<Readset>>>)
    ensures r.Err? <==> exists i :: 0 <= i < |queries| && queries[i].readTableIds.None?
    ensures r.Err? ==> r.error.AssertionError?
    ensures r.Ok? ==> r.value.Keys == UsersUpTo(queries, |queries|)
    ensures r.Ok? ==> forall u :: u in r.value ==> r.value[u] == ReadsetsUpTo(queries, |queries|, u)
  {
    var userToReadsets: map<string, set<Readset>> := map[];
    var i := 0;
    while i < |queries|
      invariant 0 <= i <= |queries|
      invariant forall j :: 0 <= j < i ==> queries[j].readTableIds.Some?
      invariant userToReadsets.Keys == UsersUpTo(queries, i)
      invariant forall u :: u in userToReadsets ==> userToReadsets[u] == ReadsetsUpTo(queries, i, u)
    {
      var query := queries[i];
      if query.readTableIds.None? {
        assert !(forall j :: 0 <= j < |queries| ==> queries[j].readTableIds.Some?);
        return Err(AssertionError("query[\"read_table_ids\"] is not None"));
      }
      var before := if query.userKey in userToReadsets then userToReadsets[query.userKey] else {};
      var next := userToReadsets[query.userKey := before + {ReadsetKey(query.readTableIds.value)}];
      CollectStep(queries, i, userToReadsets, next);
      userToReadsets := next;
      i := i + 1;
    }
    r := Ok(userToReadsets);
  }

  /** One iteration of the loop keeps the readsets of every user equal to those of the queries seen. */
  lemma CollectStep(queries: seq<TraceQuery>, i: nat, m: map<string, set<Readset>>, next: map<string, set<Readset>>)
    requires i < |queries|
    requires forall j :: 0 <= j <= i ==> queries[j].readTableIds.Some?
    requires m.Keys == UsersUpTo(queries, i)
    requires forall u :: u in m ==> m[u] == ReadsetsUpTo(queries, i, u)
    requires var k := queries[i].userKey;
      next == m[k := (if k in m then m[k] else {}) + {ReadsetKey(queries[i].readTableIds.value)}]
    ensures next.Keys == UsersUpTo(queries, i + 1)
    ensures forall u :: u in next ==> next[u] == ReadsetsUpTo(queries, i + 1, u)
  {
    var k := queries[i].userKey;
    if k !in m {
      NewUserReadsets(queries, i, k);
    }
    forall u | u in next ensures next[u] == ReadsetsUpTo(queries, i + 1, u) {
      ReadsetsStep(queries, i, u);
    }
    assert UsersUpTo(queries, i + 1) == UsersUpTo(queries, i) + {k};
  }

  lemma ReadsetsStep(queries: seq<TraceQuery>, i: nat, user: string)
    requires i < |queries|
    requires forall j :: 0 <= j <= i ==> queries[j].readTableIds.Some?
    ensures ReadsetsUpTo(queries, i + 1, user) == ReadsetsUpTo(queries, i, user)
      + (if queries[i].userKey == user then {ReadsetKey(queries[i].readTableIds.value)} else {})
  {
  }

  /** A user who has not appeared before has no readsets yet. */
  lemma {:induction false} NewUserReadsets(queries: seq<TraceQuery>, n: nat, user: string)
    requires n <= |queries|
    requires forall i :: 0 <= i < n ==> queries[i].readTableIds.Some?
    requires forall i :: 0 <= i < n ==> queries[i].userKey != user
    ensures ReadsetsUpTo(queries, n, user) == {}
  {
    if n > 0 {
      NewUserReadsets(queries, n - 1, user);
    }
  }

  // ---------------------------------------------------------------- the counts

  datatype ReadsetCounts = ReadsetCounts(numDistinctReadsets: nat, numDistinctReadsetSizes: nat)

  function Sizes(readsets: set<Readset>): set<nat> {
    set r | r in readsets :: |r|
  }

  /** `num_readsets` and `num_distinct_readset_sizes` of one user (src/user_stats.py:78-82). */
  function CountsOf(readsets: set<Readset>): ReadsetCounts {
    ReadsetCounts(|readsets|, |Sizes(readsets)|)
  }

  /** A user with at least one readset has at least one size and no more sizes than readsets. */
  lemma {:induction false} SizesBound(readsets: set<Readset>)
    requires readsets != {}
    ensures 1 <= CountsOf(readsets).numDistinctReadsetSizes <= CountsOf(readsets).numDistinctReadsets
  {
    var r :| r in readsets;
    assert |r| in Sizes(readsets);
    ImageBound(readsets);
  }

  lemma {:induction false} ImageBound(readsets: set<Readset>)
    ensures |Sizes(readsets)| <= |readsets|
    decreases |readsets|
  {
    if readsets != {} {
      var r :| r in readsets;
      var rest := readsets - {r};
      ImageBound(rest);
      assert Sizes(readsets) <= Sizes(rest) + {|r|};
      SubsetCard(Sizes(readsets), Sizes(rest) + {|r|});
    }
  }

  lemma SubsetCard<T>(a: set<T>, b: set<T>)
    requires a <= b
    ensures |a| <= |b|
  {
    assert b == a + (b - a);
  }

  /** The statistics of every user in the trace. */
  function ReadsetStats(userToReadsets: map<string, set<Readset>>): (r: map<string, ReadsetCounts>)
    ensures r.Keys == userToReadsets.Keys
  {
    map u | u in userToReadsets :: CountsOf(userToReadsets[u])
  }

  /**
   * Every user of a trace whose queries all have tables gets as many distinct
   * readsets as its queries have distinct readset keys, and between one and
   * that many distinct sizes.
   */
  lemma TraceStats(queries: seq<TraceQuery>, userToReadsets: map<string, set<Readset>>, user: string)
    requires forall i :: 0 <= i < |queries| ==> queries[i].readTableIds.Some?
    requires userToReadsets.Keys == UsersUpTo(queries, |queries|)
    requires forall u :: u in userToReadsets ==> userToReadsets[u] == ReadsetsUpTo(queries, |queries|, u)
    requires user in userToReadsets
    ensures ReadsetStats(userToReadsets)[user].numDistinctReadsets
      == |set i | 0 <= i < |queries| && queries[i].userKey == user :: ReadsetKey(queries[i].readTableIds.value)|
    ensures 1 <= ReadsetStats(userToReadsets)[user].numDistinctReadsetSizes <= ReadsetStats(userToReadsets)[user].numDistinctReadsets
  {
    var keys := set i | 0 <= i < |queries| && queries[i].userKey == user :: ReadsetKey(queries[i].readTableIds.value);
    forall r ensures r in userToReadsets[user] <==> r in keys {
      ReadsetsUpToMembers(queries, |queries|, user, r);
    }
    assert userToReadsets[user] == keys;
    var i :| 0 <= i < |queries| && queries[i].userKey == user;
    assert ReadsetKey(queries[i].readTableIds.value) in keys;
    SizesBound(userToReadsets[user]);
  }

  /** The string sort differs from the integer sort of the allocator: `9,10` gives `("10", "9")`. */
  lemma StringOrderExample(ids: string)
    requires ids == "9,10"
    ensures ReadsetKey(ids) == ["10", "9"]
  {
    var fields := ["9", "10"];
    assert ids == Join(fields, ",");
    JoinSplit(fields, ',');
    assert Split(ids, ",") == fields;
    assert !StringLe("9", "10");
    assert Sort(["10"], StringLe) == ["10"];
  }
}
