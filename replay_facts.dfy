/**
 * What replaying a whole timeline (`_sample_benchmark_for_user`,
 * src/redbench.py:147-190) guarantees: one line per query in arrival order,
 * equal query hashes always receive the same instance, each new instance is
 * counted on exactly one decision path, the state only grows, no instance
 * taken out of a pool is taken twice, and under the library's own
 * guarantees no step of the replay can fail.
 */
module ReplayFacts {
  import opened Wrappers
  import opened Sorting
  import opened LibraryIndex
  import opened Utils
  import opened Allocation
  import opened AllocationFacts

  /**
   * Query `k - 1` of a prefix that replays successfully: the shorter prefix
   * succeeded, the query was placed and its line appended.
   */
  lemma ReplayAt(lib: Library, user: UserInfo, timeline: seq<UserQuery>, start: State,
                 normalize: real -> int, oracle: Oracle, k: nat)
    returns (prev: Run, n: int, out: Outcome)
    requires 0 < k <= |timeline| && Replay(lib, user, timeline[..k], start, normalize, oracle).Ok?
    ensures Replay(lib, user, timeline[..k - 1], start, normalize, oracle) == Ok(prev)
    ensures Normalized(user, timeline[k - 1].numJoins, normalize) == Ok(n)
    ensures Sample(lib, prev.state, timeline[k - 1].(numJoins := n), oracle) == Ok(out)
    ensures out.instance.Some?
    ensures Replay(lib, user, timeline[..k], start, normalize, oracle).value == Run(
      prev.instances + [out.instance.value],
      prev.lines + [FormatRow(out.instance.value, timeline[k - 1].numJoins, n, timeline[k - 1].queryId)],
      out.state.(counters := out.state.counters["num_queries" := |prev.lines| + 1]))
  {
    var prefix := timeline[..k];
    assert prefix[..|prefix| - 1] == timeline[..k - 1];
    assert prefix[|prefix| - 1] == timeline[k - 1];
    var q := timeline[k - 1];
    prev := Replay(lib, user, timeline[..k - 1], start, normalize, oracle).value;
    n := Normalized(user, q.numJoins, normalize).value;
    out := Sample(lib, prev.state, q.(numJoins := n), oracle).value;
  }

  /**
   * Line `i` of the benchmark file names the instance of query `i`, its raw
   * and its normalised join count and its query id (src/redbench.py:184-186).
   */
  lemma ReplayLines(lib: Library, user: UserInfo, timeline: seq<UserQuery>, start: State,
                    normalize: real -> int, oracle: Oracle)
    requires Replay(lib, user, timeline, start, normalize, oracle).Ok?
    ensures var run := Replay(lib, user, timeline, start, normalize, oracle).value;
      forall i :: 0 <= i < |timeline| ==>
        && Normalized(user, timeline[i].numJoins, normalize).Ok?
        && run.lines[i] == FormatRow(run.instances[i], timeline[i].numJoins,
                                     Normalized(user, timeline[i].numJoins, normalize).value, timeline[i].queryId)
  {
    assert timeline[..|timeline|] == timeline;
    LinesPrefix(lib, user, timeline, start, normalize, oracle, |timeline|);
  }

  lemma {:induction false} LinesPrefix(lib: Library, user: UserInfo, timeline: seq<UserQuery>, start: State,
                                       normalize: real -> int, oracle: Oracle, k: nat)
    requires k <= |timeline| && Replay(lib, user, timeline[..k], start, normalize, oracle).Ok?
    ensures var run := Replay(lib, user, timeline[..k], start, normalize, oracle).value;
      forall i :: 0 <= i < k ==>
        && Normalized(user, timeline[i].numJoins, normalize).Ok?
        && run.lines[i] == FormatRow(run.instances[i], timeline[i].numJoins,
                                     Normalized(user, timeline[i].numJoins, normalize).value, timeline[i].queryId)
    decreases k
  {
    if k > 0 {
      var prev, n, out := ReplayAt(lib, user, timeline, start, normalize, oracle, k);
      LinesPrefix(lib, user, timeline, start, normalize, oracle, k - 1);
      var run := Replay(lib, user, timeline[..k], start, normalize, oracle).value;
      forall i | 0 <= i < k
        ensures Normalized(user, timeline[i].numJoins, normalize).Ok?
        ensures run.lines[i] == FormatRow(run.instances[i], timeline[i].numJoins,
                                          Normalized(user, timeline[i].numJoins, normalize).value, timeline[i].queryId)
      {
        if i < k - 1 {
          assert run.lines[i] == prev.lines[i] && run.instances[i] == prev.instances[i];
        } else {
          assert i == |prev.lines|;
        }
      }
    }
  }

  /**
   * A query that receives an instance leaves it cached under its hash, keeps
   * every earlier cache entry, and adds a cache entry exactly when it counts
   * a decision path.
   */
  lemma SampleMemo(lib: Library, st: State, q: UserQuery, oracle: Oracle)
    requires Sample(lib, st, q, oracle).Ok? && Sample(lib, st, q, oracle).value.instance.Some?
    ensures var o := Sample(lib, st, q, oracle).value;
      && Extends(st.cache, o.state.cache)
      && q.queryHash in o.state.cache && o.state.cache[q.queryHash] == o.instance.value
      && Total(o.state.counters, Paths) + |st.cache| == Total(st.counters, Paths) + |o.state.cache|
  {
    if q.queryHash in st.cache {
      CacheHit(lib, st, q, oracle);
    } else {
      NewAllocation(lib, st, q, oracle);
    }
  }

  /**
   * Memoisation: after a replay the cache holds every query hash of the
   * timeline with the instance that query received, and no entry the start
   * state had has changed.
   */
  lemma ReplayMemo(lib: Library, user: UserInfo, timeline: seq<UserQuery>, start: State,
                   normalize: real -> int, oracle: Oracle)
    requires Replay(lib, user, timeline, start, normalize, oracle).Ok?
    ensures var run := Replay(lib, user, timeline, start, normalize, oracle).value;
      && Extends(start.cache, run.state.cache)
      && forall i :: 0 <= i < |timeline| ==>
           timeline[i].queryHash in run.state.cache && run.state.cache[timeline[i].queryHash] == run.instances[i]
  {
    assert timeline[..|timeline|] == timeline;
    MemoPrefix(lib, user, timeline, start, normalize, oracle, |timeline|);
  }

  lemma {:induction false} MemoPrefix(lib: Library, user: UserInfo, timeline: seq<UserQuery>, start: State,
                                      normalize: real -> int, oracle: Oracle, k: nat)
    requires k <= |timeline| && Replay(lib, user, timeline[..k], start, normalize, oracle).Ok?
    ensures var run := Replay(lib, user, timeline[..k], start, normalize, oracle).value;
      && Extends(start.cache, run.state.cache)
      && forall i :: 0 <= i < k ==>
           timeline[i].queryHash in run.state.cache && run.state.cache[timeline[i].queryHash] == run.instances[i]
    decreases k
  {
    if k == 0 {
      assert timeline[..k] == [];
    } else {
      var prev, n, out := ReplayAt(lib, user, timeline, start, normalize, oracle, k);
      MemoPrefix(lib, user, timeline, start, normalize, oracle, k - 1);
      SampleMemo(lib, prev.state, timeline[k - 1].(numJoins := n), oracle);
      MemoStep(timeline, k, start.cache, prev.instances, prev.state.cache, out.instance.value, out.state.cache);
    }
  }

  /** The memoisation facts of the first `k - 1` queries extend to query `k - 1`. */
  lemma MemoStep(timeline: seq<UserQuery>, k: nat, first: map<string, string>, instances: seq<string>,
                 cache: map<string, string>, instance: string, after: map<string, string>)
    requires 0 < k <= |timeline| && |instances| == k - 1
    requires Extends(first, cache) && Extends(cache, after)
    requires forall i :: 0 <= i < k - 1 ==> timeline[i].queryHash in cache && cache[timeline[i].queryHash] == instances[i]
    requires timeline[k - 1].queryHash in after && after[timeline[k - 1].queryHash] == instance
    ensures Extends(first, after)
    ensures forall i :: 0 <= i < k ==>
      timeline[i].queryHash in after && after[timeline[i].queryHash] == (instances + [instance])[i]
  {
  }

  /** Two queries of a timeline with the same hash receive the same instance. */
  lemma SameHashSameInstance(lib: Library, user: UserInfo, timeline: seq<UserQuery>, start: State,
                             normalize: real -> int, oracle: Oracle, i: nat, j: nat)
    requires Replay(lib, user, timeline, start, normalize, oracle).Ok?
    requires i < |timeline| && j < |timeline| && timeline[i].queryHash == timeline[j].queryHash
    ensures Replay(lib, user, timeline, start, normalize, oracle).value.instances[i]
         == Replay(lib, user, timeline, start, normalize, oracle).value.instances[j]
  {
    ReplayMemo(lib, user, timeline, start, normalize, oracle);
  }

  lemma {:induction false} TotalOther(counters: map<string, nat>, key: string, v: nat, steps: seq<string>)
    requires key !in steps
    ensures Total(counters[key := v], steps) == Total(counters, steps)
  {
    if steps != [] {
      assert key !in steps[1..] by {
        assert forall i :: 0 <= i < |steps[1..]| ==> steps[1..][i] == steps[i + 1];
      }
      TotalOther(counters, key, v, steps[1..]);
    }
  }

  /** `num_queries` is not one of the six decision paths. */
  lemma NumQueriesNotAPath()
    ensures "num_queries" !in Paths
  {
    PathLabels();
  }

  /**
   * The six decision-path counters grow by exactly the number of new cache
   * entries: a cached query counts nothing, a new one counts one path
   * (src/redbench.py:308-309); and `num_queries` is the number of lines
   * written (src/redbench.py:187-189).
   */
  lemma ReplayCounts(lib: Library, user: UserInfo, timeline: seq<UserQuery>, start: State,
                     normalize: real -> int, oracle: Oracle)
    requires Replay(lib, user, timeline, start, normalize, oracle).Ok?
    ensures var run := Replay(lib, user, timeline, start, normalize, oracle).value;
      && Total(run.state.counters, Paths) + |start.cache| == Total(start.counters, Paths) + |run.state.cache|
      && (|timeline| > 0 ==> Count(run.state.counters, "num_queries") == |run.lines| == |timeline|)
  {
    assert timeline[..|timeline|] == timeline;
    CountsPrefix(lib, user, timeline, start, normalize, oracle, |timeline|);
  }

  lemma {:induction false} CountsPrefix(lib: Library, user: UserInfo, timeline: seq<UserQuery>, start: State,
                                        normalize: real -> int, oracle: Oracle, k: nat)
    requires k <= |timeline| && Replay(lib, user, timeline[..k], start, normalize, oracle).Ok?
    ensures var run := Replay(lib, user, timeline[..k], start, normalize, oracle).value;
      && Total(run.state.counters, Paths) + |start.cache| == Total(start.counters, Paths) + |run.state.cache|
      && (k > 0 ==> Count(run.state.counters, "num_queries") == |run.lines| == k)
    decreases k
  {
    if k == 0 {
      assert timeline[..k] == [];
    } else {
      var prev, n, out := ReplayAt(lib, user, timeline, start, normalize, oracle, k);
      CountsPrefix(lib, user, timeline, start, normalize, oracle, k - 1);
      SampleMemo(lib, prev.state, timeline[k - 1].(numJoins := n), oracle);
      NumQueriesNotAPath();
      TotalOther(out.state.counters, "num_queries", |prev.lines| + 1, Paths);
    }
  }

  // ---------------------------------------------------------------- growth over a run

  /** `Grows` without the bound of one instance per pool: what holds between any two states of a run. */
  ghost predicate Persists(before: State, after: State) {
    && Extends(before.cache, after.cache)
    && Extends(before.bindings, after.bindings)
    && before.unused.Keys == after.unused.Keys
    && (forall t :: t in before.unused ==> after.unused[t] <= before.unused[t])
    && ListsShrink(before.unmapped, after.unmapped)
    && after.draws >= before.draws
  }

  lemma PersistsAfterGrows(a: State, b: State, c: State)
    requires Persists(a, b) && Grows(b, c)
    ensures Persists(a, c)
  {
    forall t | t in a.unused ensures c.unused[t] <= a.unused[t] {
      PrefixTrans(c.unused[t], b.unused[t], a.unused[t]);
    }
    forall k | k in a.unmapped ensures multiset(c.unmapped[k]) <= multiset(a.unmapped[k]) {
    }
  }

  lemma PrefixTrans(x: seq<string>, y: seq<string>, z: seq<string>)
    requires x <= y && y <= z
    ensures x <= z
  {
    assert forall i :: 0 <= i < |x| ==> x[i] == y[i] == z[i];
  }

  /**
   * Over a whole replay the cache and the bindings only gain entries, the
   * pools only lose their last instances and the lists of unbound templates
   * only lose templates.
   */
  lemma ReplayPersists(lib: Library, user: UserInfo, timeline: seq<UserQuery>, start: State,
                       normalize: real -> int, oracle: Oracle)
    requires Replay(lib, user, timeline, start, normalize, oracle).Ok?
    ensures Persists(start, Replay(lib, user, timeline, start, normalize, oracle).value.state)
  {
    assert timeline[..|timeline|] == timeline;
    PersistsPrefix(lib, user, timeline, start, normalize, oracle, |timeline|);
  }

  lemma {:induction false} PersistsPrefix(lib: Library, user: UserInfo, timeline: seq<UserQuery>, start: State,
                                          normalize: real -> int, oracle: Oracle, k: nat)
    requires k <= |timeline| && Replay(lib, user, timeline[..k], start, normalize, oracle).Ok?
    ensures Persists(start, Replay(lib, user, timeline[..k], start, normalize, oracle).value.state)
    decreases k
  {
    if k == 0 {
      assert timeline[..k] == [];
    } else {
      var prev, n, out := ReplayAt(lib, user, timeline, start, normalize, oracle, k);
      PersistsPrefix(lib, user, timeline, start, normalize, oracle, k - 1);
      Monotone(lib, prev.state, timeline[k - 1].(numJoins := n), oracle);
      PersistsAfterGrows(start, prev.state, out.state);
    }
  }

  // ---------------------------------------------------------------- distinct instances

  /**
   * The decision path of query `q` from state `st`: `None` when the readset
   * does not parse, the hash is cached, the query is not a select or the
   * decision fails.
   */
  ghost function DecisionOf(lib: Library, st: State, q: UserQuery, oracle: Oracle): Option<Path> {
    if ReadsetOf(q.readTableIds).Err? || q.queryHash in st.cache || q.queryType != "select" then None
    else
      match Choose(lib, st, q.numJoins, ReadsetOf(q.readTableIds).value, oracle)
      case Ok(p) => Some(p.path)
      case Err(_) => None
  }

  /** The decision path of query `i` of a replay, from the state the queries before it left. */
  ghost function PathAt(lib: Library, user: UserInfo, timeline: seq<UserQuery>, start: State,
                        normalize: real -> int, oracle: Oracle, i: nat): Option<Path>
  {
    if i >= |timeline| then None
    else
      match Replay(lib, user, timeline[..i], start, normalize, oracle)
      case Err(_) => None
      case Ok(prev) =>
        match Normalized(user, timeline[i].numJoins, normalize)
        case Err(_) => None
        case Ok(n) => DecisionOf(lib, prev.state, timeline[i].(numJoins := n), oracle)
  }

  /** Query `i` is a new allocation on path 2, 5 or 6, which takes an instance out of a pool. */
  ghost predicate PopsAt(lib: Library, user: UserInfo, timeline: seq<UserQuery>, start: State,
                         normalize: real -> int, oracle: Oracle, i: nat)
  {
    PathAt(lib, user, timeline, start, normalize, oracle, i).Some?
    && Pops(PathAt(lib, user, timeline, start, normalize, oracle, i).value)
  }

  /** `x` is still an unused instance of some template. */
  ghost predicate Remaining(unused: map<string, seq<string>>, x: string) {
    exists t :: t in unused && x in unused[t]
  }

  /**
   * Pool monotonicity: within one replay, the instances handed out on paths
   * 2, 5 and 6 are pairwise distinct, because each is the last unused
   * instance of its pool and leaves it for good; only path 7, and a cached
   * hash, can give out an instance again.
   */
  lemma ReplayPopsDistinct(lib: Library, user: UserInfo, timeline: seq<UserQuery>, start: State,
                           normalize: real -> int, oracle: Oracle, i: nat, j: nat)
    requires ValidLibrary(lib) && PoolsDisjoint(lib) && PoolsWithin(lib, start.unused)
    requires Replay(lib, user, timeline, start, normalize, oracle).Ok?
    requires i < j < |timeline|
    requires PopsAt(lib, user, timeline, start, normalize, oracle, i)
    requires PopsAt(lib, user, timeline, start, normalize, oracle, j)
    ensures Replay(lib, user, timeline, start, normalize, oracle).value.instances[i]
         != Replay(lib, user, timeline, start, normalize, oracle).value.instances[j]
  {
    assert timeline[..|timeline|] == timeline;
    PopsPrefix(lib, user, timeline, start, normalize, oracle, |timeline|);
    assert i in Popped(lib, user, timeline, start, normalize, oracle, |timeline|);
    assert j in Popped(lib, user, timeline, start, normalize, oracle, |timeline|);
  }

  /** The indices of the first `k` queries that popped an instance. */
  ghost function Popped(lib: Library, user: UserInfo, timeline: seq<UserQuery>, start: State,
                        normalize: real -> int, oracle: Oracle, k: nat): set<nat>
  {
    set i: nat | i < k && PopsAt(lib, user, timeline, start, normalize, oracle, i)
  }

  lemma PoppedNext(lib: Library, user: UserInfo, timeline: seq<UserQuery>, start: State,
                   normalize: real -> int, oracle: Oracle, k: nat)
    requires k > 0
    ensures Popped(lib, user, timeline, start, normalize, oracle, k)
         == Popped(lib, user, timeline, start, normalize, oracle, k - 1)
            + (if PopsAt(lib, user, timeline, start, normalize, oracle, k - 1) then {k - 1} else {})
  {
  }

  /**
   * The pools are within the library, and the instances of the queries in
   * `pops` are pairwise distinct and in no pool any more.
   */
  ghost predicate PopFacts(lib: Library, pops: set<nat>, instances: seq<string>, unused: map<string, seq<string>>) {
    && PoolsWithin(lib, unused)
    && (forall i :: i in pops ==> i < |instances| && !Remaining(unused, instances[i]))
    && (forall i, j :: i in pops && j in pops && i < j < |instances| ==> instances[i] != instances[j])
  }

  /** The instances popped by the first `k` queries are distinct and no longer in any pool. */
  lemma {:induction false} PopsPrefix(lib: Library, user: UserInfo, timeline: seq<UserQuery>, start: State,
                                      normalize: real -> int, oracle: Oracle, k: nat)
    requires ValidLibrary(lib) && PoolsDisjoint(lib) && PoolsWithin(lib, start.unused)
    requires k <= |timeline| && Replay(lib, user, timeline[..k], start, normalize, oracle).Ok?
    ensures var run := Replay(lib, user, timeline[..k], start, normalize, oracle).value;
      PopFacts(lib, Popped(lib, user, timeline, start, normalize, oracle, k), run.instances, run.state.unused)
    decreases k
  {
    if k == 0 {
      assert timeline[..k] == [];
    } else {
      var prev, n, out := ReplayAt(lib, user, timeline, start, normalize, oracle, k);
      PopsPrefix(lib, user, timeline, start, normalize, oracle, k - 1);
      var before := Popped(lib, user, timeline, start, normalize, oracle, k - 1);
      assert PopFacts(lib, before, prev.instances, prev.state.unused);
      var q := timeline[k - 1].(numJoins := n);
      assert PathAt(lib, user, timeline, start, normalize, oracle, k - 1) == DecisionOf(lib, prev.state, q, oracle);
      Monotone(lib, prev.state, q, oracle);
      var popped := PopsAt(lib, user, timeline, start, normalize, oracle, k - 1);
      if popped {
        var t := PopStep(lib, prev.state, q, oracle);
        TookRemoves(lib, prev.state.unused, out.state.unused, t, out.instance.value);
      }
      PoppedNext(lib, user, timeline, start, normalize, oracle, k);
      var pops := Popped(lib, user, timeline, start, normalize, oracle, k);
      PopsStep(lib, before, popped, pops, prev.instances, out.instance.value, prev.state.unused, out.state.unused);
    }
  }

  /**
   * `PopFacts` for the queries before the last one extend to it: `before`
   * holds the indices of the earlier queries that popped, and `popped` says
   * whether the last one did.
   */
  lemma PopsStep(lib: Library, before: set<nat>, popped: bool, pops: set<nat>, instances: seq<string>, x: string,
                 unused: map<string, seq<string>>, next: map<string, seq<string>>)
    requires pops == before + (if popped then {|instances|} else {})
    requires PopFacts(lib, before, instances, unused) && PoolsShrink(unused, next)
    requires popped ==> Remaining(unused, x) && !Remaining(next, x)
    ensures PopFacts(lib, pops, instances + [x], next)
  {
    PoolsWithinShrink(lib, unused, next);
    var all := instances + [x];
    forall i | i in before ensures !Remaining(next, all[i]) {
      assert all[i] == instances[i];
      GoneStaysGone(unused, next, instances[i]);
    }
    forall i, j | i in pops && j in pops && i < j < |all| ensures all[i] != all[j] {
      if j == |instances| {
        assert !Remaining(unused, all[i]) && Remaining(unused, all[j]);
      } else {
        assert all[i] == instances[i] && all[j] == instances[j];
      }
    }
  }

  /** A new allocation on path 2, 5 or 6 took the last unused instance of one template. */
  lemma PopStep(lib: Library, st: State, q: UserQuery, oracle: Oracle) returns (t: string)
    requires Sample(lib, st, q, oracle).Ok?
    requires DecisionOf(lib, st, q, oracle).Some? && Pops(DecisionOf(lib, st, q, oracle).value)
    ensures Sample(lib, st, q, oracle).value.instance.Some?
    ensures Took(st.unused, Sample(lib, st, q, oracle).value.state.unused, t, Sample(lib, st, q, oracle).value.instance.value)
  {
    var readset := ReadsetOf(q.readTableIds).value;
    ChooseFrame(lib, st, q.numJoins, readset, oracle);
    var p := Choose(lib, st, q.numJoins, readset, oracle).value;
    t :| Took(st.unused, p.state.unused, t, p.instance);
  }

  /** Pools that only shrink stay within the library. */
  lemma PoolsWithinShrink(lib: Library, before: map<string, seq<string>>, after: map<string, seq<string>>)
    requires PoolsWithin(lib, before) && PoolsShrink(before, after)
    ensures PoolsWithin(lib, after)
  {
    forall t | t in after ensures after[t] <= lib.queriesByTemplate[t] {
      PrefixTrans(after[t], before[t], lib.queriesByTemplate[t]);
    }
  }

  /** An instance in no pool is in none after the pools shrink. */
  lemma GoneStaysGone(before: map<string, seq<string>>, after: map<string, seq<string>>, x: string)
    requires PoolsShrink(before, after) && !Remaining(before, x)
    ensures !Remaining(after, x)
  {
    forall t | t in after ensures x !in after[t] {
      assert x !in before[t];
      PrefixNotIn(after[t], before[t], x);
    }
  }

  lemma PrefixNotIn(a: seq<string>, b: seq<string>, x: string)
    requires a <= b && x !in b
    ensures x !in a
  {
    assert forall m :: 0 <= m < |a| ==> a[m] == b[m];
  }

  /** Taking the last instance of a pool removes it from every pool of a library whose template lists are disjoint. */
  lemma TookRemoves(lib: Library, before: map<string, seq<string>>, after: map<string, seq<string>>, t: string, x: string)
    requires ValidLibrary(lib) && PoolsDisjoint(lib) && PoolsWithin(lib, before)
    requires Took(before, after, t, x)
    ensures Remaining(before, x) && !Remaining(after, x)
  {
    var pool := before[t];
    var all := lib.queriesByTemplate[t];
    assert pool[|pool| - 1] == x && all[|pool| - 1] == x;
    assert NoDup(pool) by {
      assert forall m :: 0 <= m < |pool| ==> pool[m] == all[m];
    }
    forall u | u in after ensures x !in after[u] {
      if u == t {
        assert x !in Pop(pool) by {
          assert forall m :: 0 <= m < |pool| - 1 ==> Pop(pool)[m] == pool[m] != pool[|pool| - 1];
        }
      } else {
        assert x !in lib.queriesByTemplate[u];
        PrefixNotIn(after[u], lib.queriesByTemplate[u], x);
      }
    }
  }

  /** On the fresh copies of a user, the instances handed out on paths 2, 5 and 6 are pairwise distinct. */
  lemma SampleUserPopsDistinct(lib: Library, user: UserInfo, timeline: seq<UserQuery>, counters: map<string, nat>,
                               draws: nat, normalize: real -> int, oracle: Oracle, i: nat, j: nat)
    requires ValidLibrary(lib) && PoolsDisjoint(lib)
    requires SampleUser(lib, user, timeline, counters, draws, normalize, oracle).Ok?
    requires i < j < |timeline|
    requires PopsAt(lib, user, timeline, Initial(lib, counters, draws), normalize, oracle, i)
    requires PopsAt(lib, user, timeline, Initial(lib, counters, draws), normalize, oracle, j)
    ensures SampleUser(lib, user, timeline, counters, draws, normalize, oracle).value.instances[i]
         != SampleUser(lib, user, timeline, counters, draws, normalize, oracle).value.instances[j]
  {
    ReplayPopsDistinct(lib, user, timeline, Initial(lib, counters, draws), normalize, oracle, i, j);
  }

  // ---------------------------------------------------------------- no failure

  /** A query the allocator can place: its join count normalises to a count of the library and its readset parses. */
  ghost predicate QueryPlaceable(lib: Library, user: UserInfo, q: UserQuery, normalize: real -> int) {
    && Normalized(user, q.numJoins, normalize).Ok?
    && Normalized(user, q.numJoins, normalize).value in lib.templatesByJoins
    && q.readTableIds.Some? && ReadsetOf(q.readTableIds).Ok?
  }

  /** Query `i` is a select, was cached before the timeline started, or repeats the hash of an earlier query. */
  ghost predicate Answered(timeline: seq<UserQuery>, cache: map<string, string>, i: int)
    requires 0 <= i < |timeline|
  {
    || timeline[i].queryType == "select"
    || timeline[i].queryHash in cache
    || exists j :: 0 <= j < i && timeline[j].queryHash == timeline[i].queryHash
  }

  /**
   * What a timeline must satisfy for no step to fail: its user's join counts
   * are not all equal, every normalised count is a join count of the
   * library, every query has parseable tables, and a query that is not a
   * select repeats a hash seen before.
   */
  ghost predicate Placeable(lib: Library, user: UserInfo, timeline: seq<UserQuery>, cache: map<string, string>,
                            normalize: real -> int)
  {
    && user.maxNumJoins != user.minNumJoins
    && (forall i :: 0 <= i < |timeline| ==> QueryPlaceable(lib, user, timeline[i], normalize))
    && (forall i :: 0 <= i < |timeline| ==> Answered(timeline, cache, i))
  }

  /** A successful replay followed by one placed query is a successful replay of the longer timeline. */
  lemma ReplayNext(lib: Library, user: UserInfo, timeline: seq<UserQuery>, start: State,
                   normalize: real -> int, oracle: Oracle, prev: Run, n: int, out: Outcome)
    requires |timeline| > 0
    requires Replay(lib, user, timeline[..|timeline| - 1], start, normalize, oracle) == Ok(prev)
    requires Normalized(user, timeline[|timeline| - 1].numJoins, normalize) == Ok(n)
    requires Sample(lib, prev.state, timeline[|timeline| - 1].(numJoins := n), oracle) == Ok(out)
    requires out.instance.Some?
    ensures Replay(lib, user, timeline, start, normalize, oracle) == Ok(Run(
      prev.instances + [out.instance.value],
      prev.lines + [FormatRow(out.instance.value, timeline[|timeline| - 1].numJoins, n, timeline[|timeline| - 1].queryId)],
      out.state.(counters := out.state.counters["num_queries" := |prev.lines| + 1])))
  {
  }

  /** Query `i` placed after a successful replay of the queries before it. */
  lemma ReplayExtend(lib: Library, user: UserInfo, timeline: seq<UserQuery>, start: State,
                     normalize: real -> int, oracle: Oracle, i: nat, prev: Run, n: int, out: Outcome)
    requires i < |timeline| && Replay(lib, user, timeline[..i], start, normalize, oracle) == Ok(prev)
    requires Normalized(user, timeline[i].numJoins, normalize) == Ok(n)
    requires Sample(lib, prev.state, timeline[i].(numJoins := n), oracle) == Ok(out) && out.instance.Some?
    ensures Replay(lib, user, timeline[..i + 1], start, normalize, oracle) == Ok(Run(
      prev.instances + [out.instance.value],
      prev.lines + [FormatRow(out.instance.value, timeline[i].numJoins, n, timeline[i].queryId)],
      out.state.(counters := out.state.counters["num_queries" := |prev.lines| + 1])))
  {
    var pre := timeline[..i + 1];
    assert pre[..|pre| - 1] == timeline[..i] && pre[|pre| - 1] == timeline[i];
    ReplayNext(lib, user, pre, start, normalize, oracle, prev, n, out);
  }

  /** A join count of query `i` that does not normalise fails the whole replay. */
  lemma ReplayNormalizeFails(lib: Library, user: UserInfo, timeline: seq<UserQuery>, start: State,
                             normalize: real -> int, oracle: Oracle, i: nat, prev: Run)
    requires i < |timeline| && Replay(lib, user, timeline[..i], start, normalize, oracle) == Ok(prev)
    requires Normalized(user, timeline[i].numJoins, normalize).Err?
    ensures Replay(lib, user, timeline, start, normalize, oracle) == Err(Normalized(user, timeline[i].numJoins, normalize).error)
  {
    var pre := timeline[..i + 1];
    assert pre[..|pre| - 1] == timeline[..i] && pre[|pre| - 1] == timeline[i];
    ReplayErrPrefix(lib, user, timeline, start, normalize, oracle, i + 1);
  }

  /** A failing allocation of query `i` fails the whole replay. */
  lemma ReplaySampleFails(lib: Library, user: UserInfo, timeline: seq<UserQuery>, start: State,
                          normalize: real -> int, oracle: Oracle, i: nat, prev: Run, n: int)
    requires i < |timeline| && Replay(lib, user, timeline[..i], start, normalize, oracle) == Ok(prev)
    requires Normalized(user, timeline[i].numJoins, normalize) == Ok(n)
    requires Sample(lib, prev.state, timeline[i].(numJoins := n), oracle).Err?
    ensures Replay(lib, user, timeline, start, normalize, oracle) == Err(Sample(lib, prev.state, timeline[i].(numJoins := n), oracle).error)
  {
    var pre := timeline[..i + 1];
    assert pre[..|pre| - 1] == timeline[..i] && pre[|pre| - 1] == timeline[i];
    ReplayErrPrefix(lib, user, timeline, start, normalize, oracle, i + 1);
  }

  /** Query `i` given no instance (a new query that is not a select) fails the whole replay. */
  lemma ReplayNoInstance(lib: Library, user: UserInfo, timeline: seq<UserQuery>, start: State,
                         normalize: real -> int, oracle: Oracle, i: nat, prev: Run, n: int)
    requires i < |timeline| && Replay(lib, user, timeline[..i], start, normalize, oracle) == Ok(prev)
    requires Normalized(user, timeline[i].numJoins, normalize) == Ok(n)
    requires Sample(lib, prev.state, timeline[i].(numJoins := n), oracle).Ok?
    requires Sample(lib, prev.state, timeline[i].(numJoins := n), oracle).value.instance.None?
    ensures Replay(lib, user, timeline, start, normalize, oracle) == Err(AssertionError("benchmark_query is not None"))
  {
    var pre := timeline[..i + 1];
    assert pre[..|pre| - 1] == timeline[..i] && pre[|pre| - 1] == timeline[i];
    ReplayErrPrefix(lib, user, timeline, start, normalize, oracle, i + 1);
  }

  /** Once a prefix of the timeline fails, the whole replay fails with the same error. */
  lemma {:induction false} ReplayErrPrefix(lib: Library, user: UserInfo, timeline: seq<UserQuery>, start: State,
                                           normalize: real -> int, oracle: Oracle, i: nat)
    requires i <= |timeline| && Replay(lib, user, timeline[..i], start, normalize, oracle).Err?
    ensures Replay(lib, user, timeline, start, normalize, oracle) == Replay(lib, user, timeline[..i], start, normalize, oracle)
    decreases |timeline|
  {
    if i < |timeline| {
      var front := timeline[..|timeline| - 1];
      assert front[..i] == timeline[..i];
      ReplayErrPrefix(lib, user, front, start, normalize, oracle, i);
    } else {
      assert timeline[..i] == timeline;
    }
  }

  /**
   * A placeable timeline replayed from a state satisfying the invariant,
   * over a valid library, succeeds and keeps the invariant.
   */
  lemma ReplaySafe(lib: Library, user: UserInfo, timeline: seq<UserQuery>, start: State,
                   normalize: real -> int, oracle: Oracle)
    requires ValidLibrary(lib) && TemplatesUnique(lib) && ValidOracle(oracle) && Inv(lib, start)
    requires Placeable(lib, user, timeline, start.cache, normalize)
    ensures Replay(lib, user, timeline, start, normalize, oracle).Ok?
    ensures Inv(lib, Replay(lib, user, timeline, start, normalize, oracle).value.state)
  {
    ReplaySafePrefix(lib, user, timeline, start, normalize, oracle, |timeline|);
    assert timeline[..|timeline|] == timeline;
  }

  /** `ReplaySafe` for the first `k` queries, by induction on `k`. */
  lemma {:induction false} ReplaySafePrefix(lib: Library, user: UserInfo, timeline: seq<UserQuery>, start: State,
                                            normalize: real -> int, oracle: Oracle, k: nat)
    requires ValidLibrary(lib) && TemplatesUnique(lib) && ValidOracle(oracle) && Inv(lib, start)
    requires Placeable(lib, user, timeline, start.cache, normalize) && k <= |timeline|
    ensures Replay(lib, user, timeline[..k], start, normalize, oracle).Ok?
    ensures Inv(lib, Replay(lib, user, timeline[..k], start, normalize, oracle).value.state)
    decreases k
  {
    if k == 0 {
      assert timeline[..k] == [];
    } else {
      ReplaySafePrefix(lib, user, timeline, start, normalize, oracle, k - 1);
      var prev := Replay(lib, user, timeline[..k - 1], start, normalize, oracle).value;
      AnsweredByCache(lib, user, timeline, start, normalize, oracle, k - 1, prev);
      assert QueryPlaceable(lib, user, timeline[k - 1], normalize);
      ReplaySafeStep(lib, user, timeline, start, normalize, oracle, k, prev);
    }
  }

  /** After the queries before it, a non-select query of a placeable timeline finds its hash cached. */
  lemma AnsweredByCache(lib: Library, user: UserInfo, timeline: seq<UserQuery>, start: State,
                        normalize: real -> int, oracle: Oracle, i: nat, prev: Run)
    requires i < |timeline| && Answered(timeline, start.cache, i)
    requires Replay(lib, user, timeline[..i], start, normalize, oracle) == Ok(prev)
    ensures timeline[i].queryType == "select" || timeline[i].queryHash in prev.state.cache
  {
    var front := timeline[..i];
    var q := timeline[i];
    ReplayMemo(lib, user, front, start, normalize, oracle);
    if q.queryType != "select" && q.queryHash !in start.cache {
      var j :| 0 <= j < i && timeline[j].queryHash == q.queryHash;
      assert front[j] == timeline[j];
    }
  }

  /** Query `k - 1` of a timeline, placeable and safe under the invariant, extends a safe replay by one. */
  lemma ReplaySafeStep(lib: Library, user: UserInfo, timeline: seq<UserQuery>, start: State,
                       normalize: real -> int, oracle: Oracle, k: nat, prev: Run)
    requires ValidLibrary(lib) && TemplatesUnique(lib) && ValidOracle(oracle)
    requires 0 < k <= |timeline|
    requires Replay(lib, user, timeline[..k - 1], start, normalize, oracle) == Ok(prev)
    requires Inv(lib, prev.state)
    requires var q := timeline[k - 1];
      QueryPlaceable(lib, user, q, normalize) && (q.queryType == "select" || q.queryHash in prev.state.cache)
    ensures Replay(lib, user, timeline[..k], start, normalize, oracle).Ok?
    ensures Inv(lib, Replay(lib, user, timeline[..k], start, normalize, oracle).value.state)
  {
    var prefix := timeline[..k];
    assert prefix[..|prefix| - 1] == timeline[..k - 1];
    assert prefix[|prefix| - 1] == timeline[k - 1];
    var q := timeline[k - 1];
    var n := Normalized(user, q.numJoins, normalize).value;
    NoFailure(lib, prev.state, q.(numJoins := n), oracle);
    var out := Sample(lib, prev.state, q.(numJoins := n), oracle).value;
    ReplayNext(lib, user, prefix, start, normalize, oracle, prev, n, out);
    InvOfFields(lib, out.state, Replay(lib, user, prefix, start, normalize, oracle).value.state);
  }

  /** The invariant reads only the pools, the lists of unbound templates and the bindings. */
  lemma InvOfFields(lib: Library, a: State, b: State)
    requires Inv(lib, a)
    requires b.unused == a.unused && b.unmapped == a.unmapped && b.bindings == a.bindings
    ensures Inv(lib, b)
  {
  }

  /**
   * For one user: every pool of a valid library starts non-empty, so the
   * assertion of src/redbench.py:158 holds, and a placeable timeline is
   * replayed without failure from the fresh state.
   */
  lemma SampleUserSafe(lib: Library, user: UserInfo, timeline: seq<UserQuery>, counters: map<string, nat>,
                       draws: nat, normalize: real -> int, oracle: Oracle)
    requires ValidLibrary(lib) && TemplatesUnique(lib) && ValidOracle(oracle)
    requires Placeable(lib, user, timeline, map[], normalize)
    ensures SampleUser(lib, user, timeline, counters, draws, normalize, oracle).Ok?
    ensures SampleUser(lib, user, timeline, counters, draws, normalize, oracle)
         == Replay(lib, user, timeline, Initial(lib, counters, draws), normalize, oracle)
  {
    InitialInv(lib, counters, draws);
    ReplaySafe(lib, user, timeline, Initial(lib, counters, draws), normalize, oracle);
  }
}
