/**
 * The allocation rules of the Redbench query allocator
 * (`Redbench._sample_single_query`, src/redbench.py:192-310), as functions
 * from the allocator's per-user state to its next state.
 *
 * For every query of a user's timeline the allocator picks an instance, a
 * query file of the benchmark library. A query hash seen before gets the
 * instance it got then. A new select query is placed by its readset, the
 * sorted tuple of table ids it reads:
 *   (2)   a readset already bound to a template takes the last unused instance
 *         of that template;
 *   (3)   ... unless that template has none left, then it falls back;
 *   (5)   a readset never seen binds the unbound template of its join count
 *         with the most unused instances, retires that template from every
 *         list of unbound templates and takes one of its instances;
 *   (4)   ... unless no unbound template has one left, then it falls back;
 *   (6)   the fallback takes an instance from the first template, in a
 *         shuffled copy of all templates of the join count, that has one left;
 *   (7)   ... or, if none has, any query of the join count, removing nothing.
 * Each new allocation counts one occurrence of its decision path and is
 * cached under the query hash.
 *
 * The random generator is an `Oracle`: the shuffled copy of a list and an
 * index below a length, each a function of the number of draws made before.
 */
module Allocation {
  import opened Wrappers
  import opened Strings
  import opened LibraryIndex
  import opened Utils

  /** One record of a user's query timeline, as the allocator reads it. */
  datatype UserQuery = UserQuery(
    queryHash: string,
    readTableIds: Option<string>,
    numJoins: int,
    queryType: string,
    queryId: int)

  /**
   * The allocator's state for one user: the unused instances of each template,
   * the templates of each join count not yet bound to a readset, the instance
   * given to each query hash, the template bound to each readset, the
   * decision-path counters of the user and the number of random draws so far.
   */
  datatype State = State(
    unused: map<string, seq<string>>,
    unmapped: map<int, seq<string>>,
    cache: map<string, string>,
    bindings: map<seq<int>, string>,
    counters: map<string, nat>,
    draws: nat)

  /** The random generator: `random.shuffle` and `random.choice` after a given number of draws. */
  datatype Oracle = Oracle(shuffle: (nat, seq<string>) -> seq<string>, choice: (nat, nat) -> nat)

  /** A generator whose shuffle returns a permutation of its list. */
  ghost predicate ValidOracle(oracle: Oracle) {
    forall k, s :: multiset(oracle.shuffle(k, s)) == multiset(s)
  }

  /** The decision paths counted in the statistics (src/redbench.py:313). */
  const Paths: seq<string> := ["2", "5", "3 -> 6", "3 -> 7", "4 -> 6", "4 -> 7"]

  /** The state a user starts from: deep copies of the template pools and of the template lists. */
  function Initial(lib: Library, counters: map<string, nat>, draws: nat): State {
    State(lib.queriesByTemplate, lib.templatesByJoins, map[], map[], counters, draws)
  }

  // ---------------------------------------------------------------- counters

  /** A counter of `sampling_stats`, zero when never written (a `defaultdict(int)`). */
  function Count(counters: map<string, nat>, key: string): nat {
    if key in counters then counters[key] else 0
  }

  /** `sampling_stats[user_key][key] += 1`. */
  function Increment(counters: map<string, nat>, key: string): (r: map<string, nat>)
    ensures Count(r, key) == Count(counters, key) + 1
    ensures forall other :: other != key ==> Count(r, other) == Count(counters, other)
  {
    counters[key := Count(counters, key) + 1]
  }

  /** The sum of the counters of the given steps. */
  function Total(counters: map<string, nat>, steps: seq<string>): nat {
    if steps == [] then 0 else Count(counters, steps[0]) + Total(counters, steps[1..])
  }

  // ---------------------------------------------------------------- lists

  function Last(s: seq<string>): string
    requires |s| > 0
  {
    s[|s| - 1]
  }

  /** `list.pop()`: the list without its last element. */
  function Pop(s: seq<string>): (r: seq<string>)
    requires |s| > 0
    ensures r + [Last(s)] == s
  {
    s[..|s| - 1]
  }

  /** `list.remove(x)`: the list without the first occurrence of `x`. */
  function RemoveFirst(s: seq<string>, x: string): (r: seq<string>)
    ensures multiset(r) == multiset(s) - multiset{x}
    ensures x in s ==> |r| == |s| - 1
    ensures x !in s ==> r == s
  {
    if s == [] then []
    else if s[0] == x then (assert s == [s[0]] + s[1..]; s[1..])
    else (assert s == [s[0]] + s[1..]; [s[0]] + RemoveFirst(s[1..], x))
  }

  /** The number of unused instances of a template, zero for an unknown one. */
  function Size(unused: map<string, seq<string>>, t: string): nat {
    if t in unused then |unused[t]| else 0
  }

  /** The state after taking the last unused instance of `t`. */
  function PopPool(st: State, t: string): (r: State)
    requires t in st.unused && |st.unused[t]| > 0
    ensures r.unused.Keys == st.unused.Keys
    ensures Size(r.unused, t) == Size(st.unused, t) - 1
    ensures forall u :: u != t ==> Size(r.unused, u) == Size(st.unused, u)
  {
    st.(unused := st.unused[t := Pop(st.unused[t])])
  }

  // ---------------------------------------------------------------- decision paths

  /** How the fallback ended: an instance of a template with instances left (6), or any query (7). */
  datatype Final = Six | Seven

  /** The decision path of a new allocation. */
  datatype Path = Reuse | Bind | BoundFallback(final: Final) | UnboundFallback(final: Final)

  function FinalLabel(f: Final): string {
    match f
    case Six => "6"
    case Seven => "7"
  }

  /** The label a path is counted under (src/redbench.py:245, 251, 303, 307). */
  function Label(p: Path): string {
    match p
    case Reuse => "2"
    case Bind => "5"
    case BoundFallback(f) => "3 -> " + FinalLabel(f)
    case UnboundFallback(f) => "4 -> " + FinalLabel(f)
  }

  /** Whether a path takes an instance out of a template's pool (steps 2, 5 and 6). */
  predicate Pops(p: Path) {
    p.Reuse? || p.Bind? || p.final == Six
  }

  /** The result of one decision: the instance, the path and the state before counting and caching. */
  datatype Pick = Pick(instance: string, path: Path, state: State)

  // ---------------------------------------------------------------- step 6 / 7

  /**
   * The loop of `step_6` (src/redbench.py:218-228): the first template of
   * `pool` with an unused instance. The membership test in the keys of the
   * unbound-template map compares a template name with join counts and never
   * holds, so only the pool size decides. A template without a pool is a KeyError.
   */
  function FirstWithPool(pool: seq<string>, unused: map<string, seq<string>>): (r: Result<Option<string>>)
    ensures r.Ok? && r.value.Some? ==> r.value.value in pool && r.value.value in unused && |unused[r.value.value]| > 0
  {
    if pool == [] then Ok(None)
    else if pool[0] !in unused then Err(KeyError(pool[0]))
    else if |unused[pool[0]]| > 0 then Ok(Some(pool[0]))
    else FirstWithPool(pool[1..], unused)
  }

  /** The result of the fallback: the instance, how it ended and the state after it. */
  datatype Fallback = Fallback(instance: string, final: Final, state: State)

  /** `step_6` (src/redbench.py:212-236). */
  function Step6(lib: Library, st: State, n: int, oracle: Oracle): (r: Result<Fallback>)
  {
    if n !in lib.templatesByJoins then Err(KeyError(IntToString(n)))
    else
      var shuffled := oracle.shuffle(st.draws, lib.templatesByJoins[n]);
      var st1 := st.(draws := st.draws + 1);
      var found :- FirstWithPool(shuffled, st.unused);
      if found.Some? then
        Ok(Fallback(Last(st.unused[found.value]), Six, PopPool(st1, found.value)))
      else if n !in lib.queriesByJoins then Err(KeyError(IntToString(n)))
      else
        var queries := lib.queriesByJoins[n];
        if |queries| == 0 then Err(IndexError("Cannot choose from an empty sequence"))
        else
          var i := oracle.choice(st1.draws, |queries|) % |queries|;
          Ok(Fallback(queries[i], Seven, st1.(draws := st1.draws + 1)))
  }

  // ---------------------------------------------------------------- step 2 / 3

  /** A readset bound to template `t` (src/redbench.py:239-251). */
  function Bound(lib: Library, st: State, n: int, t: string, oracle: Oracle): (r: Result<Pick>)
    ensures r.Ok? ==> r.value.path.Reuse? || r.value.path.BoundFallback?
  {
    if t !in st.unused then Err(KeyError(t))
    else if |st.unused[t]| > 0 then Ok(Pick(Last(st.unused[t]), Reuse, PopPool(st, t)))
    else
      var f :- Step6(lib, st, n, oracle);
      Ok(Pick(f.instance, BoundFallback(f.final), f.state))
  }

  // ---------------------------------------------------------------- step 4 / 5

  /** The best template so far and its number of unused instances. */
  datatype Best = Best(template: Option<string>, value: nat)

  /**
   * The scan of src/redbench.py:257-266 over `cands`: a candidate replaces the
   * best so far only if it has strictly more unused instances, starting from 0.
   */
  function Scan(cands: seq<string>, unused: map<string, seq<string>>): (r: Result<Best>)
    ensures r.Ok? ==> (r.value.template.Some? <==> r.value.value > 0)
    ensures r.Ok? && r.value.template.Some? ==>
      r.value.template.value in cands && Size(unused, r.value.template.value) == r.value.value
  {
    if cands == [] then Ok(Best(None, 0))
    else
      var prev :- Scan(cands[..|cands| - 1], unused);
      var c := cands[|cands| - 1];
      if c !in unused then Err(KeyError(c))
      else if |unused[c]| > prev.value then Ok(Best(Some(c), |unused[c]|))
      else Ok(prev)
  }

  /** The join counts whose list of unbound templates holds `t`. */
  function Holders(unmapped: map<int, seq<string>>, t: string): set<int> {
    set k | k in unmapped && t in unmapped[k]
  }

  /** The loop of src/redbench.py:280-289: `t` removed from every list of unbound templates. */
  function Retire(unmapped: map<int, seq<string>>, t: string): (r: map<int, seq<string>>)
    ensures r.Keys == unmapped.Keys
    ensures forall k :: k in r ==> multiset(r[k]) == multiset(unmapped[k]) - multiset{t}
  {
    map k | k in unmapped :: if t in unmapped[k] then RemoveFirst(unmapped[k], t) else unmapped[k]
  }

  /** A readset never seen (src/redbench.py:253-307). */
  function Unbound(lib: Library, st: State, n: int, ids: seq<int>, oracle: Oracle): (r: Result<Pick>)
    ensures r.Ok? ==> r.value.path.Bind? || r.value.path.UnboundFallback?
  {
    if n !in st.unmapped then Err(KeyError(IntToString(n)))
    else
      var best :- Scan(st.unmapped[n], st.unused);
      if best.value > 0 then
        var t := best.template.value;
        if |Holders(st.unmapped, t)| != 1 then
          Err(AssertionError("The same template " + t + " produces different num_joins"))
        else
          var bound := st.(unmapped := Retire(st.unmapped, t), bindings := st.bindings[ids := t]);
          Ok(Pick(Last(st.unused[t]), Bind, PopPool(bound, t)))
      else
        var f :- Step6(lib, st, n, oracle);
        Ok(Pick(f.instance, UnboundFallback(f.final), f.state))
  }

  // ---------------------------------------------------------------- one query

  /** The decision for a new select query; a missing readset `[]` cannot be a dict key. */
  function Choose(lib: Library, st: State, n: int, readset: ReadsetValue, oracle: Oracle): (r: Result<Pick>)
    ensures r.Ok? ==> readset.Tuple? && (r.value.path.Reuse? || r.value.path.BoundFallback? <==> readset.ids in st.bindings)
  {
    match readset
    case EmptyList => Err(TypeError("unhashable type: 'list'"))
    case Tuple(ids) =>
      if ids in st.bindings then Bound(lib, st, n, st.bindings[ids], oracle)
      else Unbound(lib, st, n, ids, oracle)
  }

  /** Counting the decision path and caching the instance under the query hash (src/redbench.py:308-309). */
  function Commit(pick: Pick, queryHash: string): State {
    pick.state.(counters := Increment(pick.state.counters, Label(pick.path)),
                cache := pick.state.cache[queryHash := pick.instance])
  }

  /** The instance given to a query (None for a new non-select query) and the state after it. */
  datatype Outcome = Outcome(instance: Option<string>, state: State)

  /**
   * `_sample_single_query` (src/redbench.py:192-310). The readset is read
   * first, so a malformed `read_table_ids` fails even for a cached hash.
   */
  function Sample(lib: Library, st: State, q: UserQuery, oracle: Oracle): (r: Result<Outcome>)
  {
    var readset :- ReadsetOf(q.readTableIds);
    if q.queryHash in st.cache then Ok(Outcome(Some(st.cache[q.queryHash]), st))
    else if q.queryType != "select" then Ok(Outcome(None, st))
    else
      var pick :- Choose(lib, st, q.numJoins, readset, oracle);
      Ok(Outcome(Some(pick.instance), Commit(pick, q.queryHash)))
  }

  // ---------------------------------------------------------------- one user

  /** The fields of a sampled user the allocation reads. */
  datatype UserInfo = UserInfo(userKey: string, minNumJoins: int, maxNumJoins: int)

  /**
   * The join count of the library a user query is mapped to
   * (src/redbench.py:166-170): the raw count scaled into [0, 1] between the
   * user's smallest and largest count, then `normalize` (the benchmark's
   * `normalize_num_joins`, a parameter here). A user whose counts are all
   * equal divides by zero.
   */
  function Normalized(user: UserInfo, rawJoins: int, normalize: real -> int): (r: Result<int>)
    ensures r.Err? <==> user.maxNumJoins == user.minNumJoins
  {
    if user.maxNumJoins == user.minNumJoins then Err(ZeroDivisionError)
    else Ok(normalize((rawJoins - user.minNumJoins) as real / (user.maxNumJoins - user.minNumJoins) as real))
  }

  /** One line of the user's benchmark file (src/redbench.py:184-186). */
  function FormatRow(instance: string, rawJoins: int, numJoins: int, queryId: int): string {
    instance + "," + IntToString(rawJoins) + "," + IntToString(numJoins) + "," + IntToString(queryId)
  }

  /** The instances given to the queries so far, the lines written for them and the state. */
  datatype Run = Run(instances: seq<string>, lines: seq<string>, state: State)

  /**
   * The loop of `_sample_benchmark_for_user` (src/redbench.py:164-189) over a
   * timeline: a query that receives no instance fails the assertion of line
   * 182, and `num_queries` is rewritten after every query.
   */
  function Replay(lib: Library, user: UserInfo, timeline: seq<UserQuery>, start: State,
                  normalize: real -> int, oracle: Oracle): (r: Result<Run>)
    ensures r.Ok? ==> |r.value.instances| == |r.value.lines| == |timeline|
    decreases |timeline|
  {
    if timeline == [] then Ok(Run([], [], start))
    else
      var prev :- Replay(lib, user, timeline[..|timeline| - 1], start, normalize, oracle);
      var q := timeline[|timeline| - 1];
      var n :- Normalized(user, q.numJoins, normalize);
      var out :- Sample(lib, prev.state, q.(numJoins := n), oracle);
      if out.instance.None? then Err(AssertionError("benchmark_query is not None"))
      else
        var lines := prev.lines + [FormatRow(out.instance.value, q.numJoins, n, q.queryId)];
        var counters := out.state.counters["num_queries" := |lines|];
        Ok(Run(prev.instances + [out.instance.value], lines, out.state.(counters := counters)))
  }

  /**
   * `_sample_benchmark_for_user` without the timeline query and the file
   * write (src/redbench.py:147-190): every template pool must start
   * non-empty, then the timeline is replayed from fresh copies of the pools.
   */
  function SampleUser(lib: Library, user: UserInfo, timeline: seq<UserQuery>, counters: map<string, nat>,
                      draws: nat, normalize: real -> int, oracle: Oracle): (r: Result<Run>)
    ensures r.Ok? ==> forall t :: t in lib.queriesByTemplate ==> |lib.queriesByTemplate[t]| > 0
  {
    if exists t :: t in lib.queriesByTemplate && |lib.queriesByTemplate[t]| == 0 then
      Err(AssertionError("not any([len(v) == 0 for _, v in ceb_template_to_unused_queries.items()])"))
    else Replay(lib, user, timeline, Initial(lib, counters, draws), normalize, oracle)
  }
}
