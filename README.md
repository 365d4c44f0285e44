# Redbench query allocation, modelled in Dafny

Redbench builds benchmark workloads out of real query traces. Each user in a
trace has a timeline of queries. The generator replays that timeline against a
library of benchmark queries, such as IMDb JOB/CEB+ or TPC-DS. For every user
query it picks an *instance*, one benchmark query file. It then writes the
picks as a CSV workload. `setup.py` later inlines that CSV into a runnable
SQL script. This project models the core of that pipeline:

- **the allocator** (`Redbench._sample_benchmark_for_user` and
  `_sample_single_query`). A repeated query hash gets the instance it got
  before. A new select query is placed by its readset: a known readset reuses
  its bound template (path 2), or falls back when the template is exhausted
  (3). An unknown readset binds the unbound template of its join count that has
  the most unused instances (5), or falls back (4). The fallback (6/7) takes the
  first template in a shuffled list that still has an instance, or any query of
  the join count. Each new allocation counts its decision path and is cached
  under its query hash.
  - The pure rules are the functions of module `Allocation`.
  - Their properties are proved in `AllocationFacts` (one query) and
    `ReplayFacts` (a whole timeline). Over a timeline, equal hashes get equal
    instances, and the instances taken out of a pool (paths 2, 5 and 6) are
    pairwise distinct.
  - The allocator object, whose dictionaries the source mutates in place, is the
    class `Redbench.Allocator`. Its methods are proved equal to those functions.
- **the library indexes** of `src/utils.py` (`map_num_joins_to_ceb_queries`,
  `map_num_joins_to_ceb_templates`, `map_ceb_template_to_ceb_queries`). They are
  loops over the query statistics, modelled as methods. A specification
  predicate defines each result, and each result is proved unique: the sort
  makes it independent of the dictionary's iteration order.
- **the helpers** `get_readset_from_user_query`, `wrap` and `parse_user_key`
  (module `Utils`).
- **template extraction** from a query path, for IMDb (`Imdb`) and TPC-DS
  (`Tpcds`). `Tpcds` also covers the `N days` to `INTERVAL 'N' DAY` rewrite and
  the statement split of TPC-DS query generation.
- **the readset statistics** of `src/user_stats.py` (`UserStats`).
- **the output files**: the per-user workload CSV (`Redbench.BenchmarkFile`)
  and the stats CSV of a group (`Stats`).
- **the inlining of workloads** by `setup.py` (`Unpack`).

Some inputs are not computed by the model; each one is a parameter:

| input | modelled as |
|---|---|
| random generator | an `Oracle` value: the shuffle of a list and a choice below a length, each a function of the number of draws made so far |
| join-count normalisation of the benchmark | a function parameter `normalize` |
| timeline and library | values |
| files read by `setup.py` | a map from path to text |

Errors that the Python code raises appear as the `Err` case of a `Result`, with
the Python exception kind: `KeyError`, `IndexError`, `ValueError`,
`ZeroDivisionError`, `AssertionError`, `AttributeError`, `TypeError` and
`FileNotFoundError`. For a bare `assert` the model labels the
`AssertionError` with the asserted condition; Python's message there is empty.

Where the code and its documentation differ, the model follows the code. The
step-6 condition at src/redbench.py:221-222 asks whether a template *name* is a
key of `num_joins_to_unmapped_ceb_templates`. The keys of that dictionary are
join counts, so the test is never true. The model therefore reduces step 6 to
"the first shuffled template whose pool is non-empty". It does not restrict
step 6 to already-bound templates, as the comment at src/redbench.py:219
describes.

## Model

| member | source | states |
|---|---|---|
| Allocation.Increment | src/redbench.py:308 | the counter of the decision path grows by one, every other counter is unchanged (a `defaultdict(int)` increment) |
| Allocation.Pop | src/redbench.py:226 | `list.pop()` removes the last element: what is left followed by that element is the list |
| Allocation.RemoveFirst | src/redbench.py:285-288 | `list.remove` takes exactly one occurrence away (multiset difference), shortens a list that holds it by one and leaves any other list as it was |
| Allocation.PopPool | src/redbench.py:224-226 | popping an instance of a template shrinks that template's pool by one, keeps every other pool's size and the set of templates |
| Allocation.FirstWithPool | src/redbench.py:218-228 | a template found by step 6 is in the shuffled pool and still has an unused instance |
| Allocation.Bound | src/redbench.py:239-251 | a query whose readset is bound ends on path 2 or on 3 → 6/7 |
| Allocation.Scan | src/redbench.py:257-266 | the scan finds a template exactly when the best value is positive, and that template is a candidate whose pool size is the best value |
| Allocation.Retire | src/redbench.py:280-289 | retiring a template keeps every join count and removes one occurrence of the template from each list |
| Allocation.Unbound | src/redbench.py:253-307 | a query with an unbound readset ends on path 5 or on 4 → 6/7 |
| Allocation.Choose | src/redbench.py:238-307 | a decision is reached only for a tuple readset, and it takes path 2 or 3 exactly when the readset is already bound |
| Allocation.Normalized | src/redbench.py:166-170 | normalising the join count fails with a division by zero exactly when the user's maximum and minimum join counts are equal |
| Allocation.Replay | src/redbench.py:164-189 | a timeline replayed without error yields one instance and one CSV line per query |
| Allocation.SampleUser | src/redbench.py:154-158 | sampling a user can succeed only if every template of the library starts with a non-empty pool |
| AllocationFacts.FirstWithPoolIsFirst | src/redbench.py:218-235 | step 6 finds nothing exactly when every shuffled template has an empty pool; otherwise it finds the first template with an instance left; a template without a pool raises `KeyError` |
| AllocationFacts.ScanIsGreedy | src/redbench.py:257-266 | the scan succeeds exactly when every candidate has a pool, and then returns the first candidate of maximal pool size, with that size |
| AllocationFacts.BestUnique | src/redbench.py:257-266 | the greedy choice is unique: two results that both meet the greedy specification are equal |
| AllocationFacts.RemoveFirstNoDup | src/redbench.py:285-288 | in a list without duplicates, `remove` deletes the element entirely and keeps every other element |
| AllocationFacts.RetireEverywhere | src/redbench.py:280-289 | with duplicate-free lists, no list holds the template after retirement and every other membership is unchanged |
| AllocationFacts.CacheHit | src/redbench.py:204-207 | a query hash seen before gets its cached instance and the state is unchanged |
| AllocationFacts.MalformedReadset | src/redbench.py:202 | a readset field that is not an integer fails the query before anything else, even one whose hash is cached |
| AllocationFacts.NewNonSelect | src/redbench.py:203-210 | a new query that is not a select gets no instance and changes nothing |
| AllocationFacts.NewWithoutReadset | src/redbench.py:239 | a new select query with no readset fails, because the empty list used as a dictionary key is unhashable |
| AllocationFacts.PathLabels | src/redbench.py:313 | every decision path is labelled by one of the six distinct labels of the stats file, in their order |
| AllocationFacts.TotalIncrement | src/redbench.py:308 | counting a key raises the total over the path labels by one exactly when that key is a path label |
| AllocationFacts.NewAllocation | src/redbench.py:308-309 | a new select query that succeeds gets an instance, caches it under its hash, and counts exactly one path once |
| AllocationFacts.CommitAdds | src/redbench.py:308-309 | committing a pick caches its instance and raises the path total by exactly one |
| AllocationFacts.ChooseFrame | src/redbench.py:238-307 | a decision takes the last instance of one pool on paths 2, 5 and 6 and none on path 7, binds the readset and retires a template only on path 5, takes paths 2/3 exactly for a bound readset, and leaves the cache and the counters alone |
| AllocationFacts.BoundFrame | src/redbench.py:239-251 | the bound-readset branch keeps to that frame: it changes no binding and retires no template |
| AllocationFacts.UnboundFrame | src/redbench.py:253-307 | the unbound-readset branch keeps to that frame: at most it binds the new readset and retires the chosen template |
| AllocationFacts.Step6Frame | src/redbench.py:212-236 | step 6 takes one instance from one pool, step 7 takes none; the lists, the bindings, the cache and the counters are unchanged |
| AllocationFacts.BoundReadsetPops | src/redbench.py:239-248 | a bound readset whose template has instances left takes that template's last instance, and only that pool loses it (path 2) |
| AllocationFacts.BoundReadsetFallsBack | src/redbench.py:249-251 | a bound readset whose template is exhausted goes to step 6/7, labelled 3 → 6 or 3 → 7 |
| AllocationFacts.UnboundReadsetBinds | src/redbench.py:254-303 | an unknown readset with a non-exhausted unbound candidate binds the greedy choice, retires it, takes its last instance and counts path 5 |
| AllocationFacts.UnboundBinds | src/redbench.py:254-303 | the same for the unbound branch on its own, including the check that exactly one list held the template |
| AllocationFacts.UnboundReadsetFallsBack | src/redbench.py:304-307 | an unknown readset whose candidates are all exhausted goes to step 6/7, labelled 4 → 6 or 4 → 7 |
| AllocationFacts.Fallback | src/redbench.py:212-236 | step 6 takes the last instance of the first shuffled template that has one left; step 7 happens only when every shuffled template is exhausted, and it picks a query of the join count without removing anything |
| AllocationFacts.Monotone | src/redbench.py:204-309 | one query, cached or not, only extends the cache and the bindings, pops at most one instance from each pool and never adds to a list of unbound templates |
| AllocationFacts.CommitGrows | src/redbench.py:308-309 | a decision followed by counting and caching lets the state grow in that same sense |
| AllocationFacts.InitialInv | src/redbench.py:154-163 | for a valid library, the fresh copies satisfy the allocator invariant: each pool is a prefix of its template's queries, each list of unbound templates is duplicate-free and within its join count, and every bound template is retired from every list |
| AllocationFacts.Step6Safe | src/redbench.py:212-236 | for a valid library, a permutation shuffle and a join count of the library, step 6/7 does not fail and keeps the invariant |
| AllocationFacts.BoundSafe | src/redbench.py:239-251 | under the invariant, the bound-readset branch does not fail and keeps the invariant |
| AllocationFacts.UnboundSafe | src/redbench.py:253-307 | under the invariant, with templates of one join count each, the unbound branch does not fail (the assertions at lines 270-277 and 290-292 hold) and keeps the invariant |
| AllocationFacts.RetireInv | src/redbench.py:279-297 | retiring the chosen template and binding it keeps the invariant |
| AllocationFacts.CommitInv | src/redbench.py:308-309 | counting and caching keep the invariant |
| AllocationFacts.NoFailure | src/redbench.py:192-310 | under the invariant, a query with a parseable readset and a join count of the library never fails, keeps the invariant, and gets an instance when it is a select or a cache hit |
| Redbench.Allocator.constructor | src/redbench.py:153-163 | the allocator starts from copies of the library's pools and lists of unbound templates, with an empty cache and no readset bindings |
| Redbench.Allocator.Step6 | src/redbench.py:212-236 | the in-place step 6/7 returns what `Allocation.Step6` returns and leaves the state it describes |
| Redbench.Allocator.BestCandidate | src/redbench.py:257-266 | the scanning loop computes `Allocation.Scan` |
| Redbench.Allocator.RetireTemplate | src/redbench.py:280-289 | the loop over the lists retires the template everywhere, counts the lists that held it, and touches nothing else |
| Redbench.Allocator.SampleSingleQuery | src/redbench.py:192-310 | the in-place allocation of one query returns and leaves what `Allocation.Sample` gives |
| Redbench.Allocator.Decide | src/redbench.py:238-307 | the in-place readset decision matches `Allocation.Choose`, including the decision path |
| Redbench.SampleBenchmarkForUser | src/redbench.py:147-190 | the per-user loop computes exactly `Allocation.SampleUser`: its lines, its instances, its counters and its errors |
| Redbench.ServeQuery | src/redbench.py:164-182 | one loop iteration normalises the join count and allocates the query; any error it reports is the error of the whole timeline |
| Redbench.SampleUserEmptyPool | src/redbench.py:158 | a library with an empty template pool fails the assertion before any query is sampled |
| Redbench.SampleUserReplays | src/redbench.py:154-164 | otherwise, sampling a user is the replay of its timeline from the fresh state |
| Redbench.FormatRowShape | src/redbench.py:184-186 | a workload line starts with the instance path and a comma and has no line break |
| Redbench.PathFieldOf | setup.py:26 | reading the first comma field of such a line gives back the instance |
| Redbench.BenchmarkFileRows | src/redbench.py:349-359 | the written workload CSV, read back without its header, gives one row per line, and row i starts with instance i |
| Redbench.RowsOfFile | src/redbench.py:357-359 | the same for a file made of any header line and the joined lines |
| Redbench.WrittenBenchmarkUnpacks | src/redbench.py:184-190 | for a successful replay, inlining the written CSV reads exactly the sampled instances, in timeline order |
| Redbench.BenchmarkFileUnpacked | src/redbench.py:356-357 | the inliner picks up a workload file exactly when its workload type is not `stats` |
| Redbench.PickSample | src/redbench.py:82-85 | a ranked group is sampled at its first, middle and last user; an empty group fails; the last pick is always labelled high variability |
| Redbench.PickSampleLabels | src/redbench.py:82-85 | with three or more users the picks are distinct and labelled low, mid and high; with one or two, shared picks carry the last label written |
| Redbench.RetireStep | src/redbench.py:281-289 | one iteration of the retire loop keeps its invariant: visited lists are retired and the count is the number of visited holders |
| Redbench.RetireDone | src/redbench.py:280-292 | after every list is visited, the lists are retired and the count equals the number of lists that held the template |
| ReplayFacts.ReplayAt | src/redbench.py:164-189 | instance i of a replay is the one allocated to query i in the state left by the queries before it |
| ReplayFacts.ReplayLines | src/redbench.py:184-186 | line i is instance i, the raw join count, the normalised join count and the query id |
| ReplayFacts.SampleMemo | src/redbench.py:309 | after an allocation that gives an instance, the query hash is cached with it, earlier cache entries are kept, and the path total grows exactly as the cache does |
| ReplayFacts.ReplayMemo | src/redbench.py:204-209 | after a replay, every query's hash is cached with the instance it got, and earlier cache entries are kept |
| ReplayFacts.SameHashSameInstance | src/redbench.py:204-207 | two queries of a timeline with the same hash get the same instance |
| ReplayFacts.NumQueriesNotAPath | src/redbench.py:187-189 | `num_queries` is not a path label, so the query counter and the path counters never mix |
| ReplayFacts.ReplayCounts | src/redbench.py:184-189 | the path counters grow by exactly the number of new cache entries, and `num_queries` is the number of lines, which is the length of the timeline |
| ReplayFacts.ReplayPersists | src/redbench.py:164-189 | over a whole replay the cache and the bindings only gain entries, each pool only loses a suffix, and no list of unbound templates gains an element |
| ReplayFacts.ReplayPopsDistinct | src/redbench.py:164-189 | within one replay over a library whose template lists are duplicate-free and disjoint, starting from pools that are prefixes of those lists, two queries allocated on paths 2, 5 or 6 (the pops at lines 226, 247 and 302) never get the same instance; only path 7 and cached hashes can repeat one |
| ReplayFacts.SampleUserPopsDistinct | src/redbench.py:154-189 | the same for a user sampled from fresh copies of the pools |
| ReplayFacts.ReplayNext | src/redbench.py:164-189 | a timeline whose last query normalises and gets an instance replays as its prefix plus that instance, its line and the updated `num_queries` |
| ReplayFacts.ReplayExtend | src/redbench.py:164-189 | the replay of a prefix one query longer adds exactly that query's instance and line |
| ReplayFacts.ReplayNormalizeFails | src/redbench.py:167-170 | a normalisation error at query i is the error of the whole timeline |
| ReplayFacts.ReplaySampleFails | src/redbench.py:174-181 | an allocation error at query i is the error of the whole timeline |
| ReplayFacts.ReplayNoInstance | src/redbench.py:182 | a query at i that gets no instance fails the assertion and ends the timeline |
| ReplayFacts.ReplayErrPrefix | src/redbench.py:164-189 | once a prefix fails, the whole timeline fails with the same error |
| ReplayFacts.ReplaySafe | src/redbench.py:164-189 | against a valid library with a permutation shuffle, from a state meeting the invariant, a timeline whose queries all normalise to a join count of the library and have parseable readsets, and whose non-select queries repeat a known hash, never fails |
| ReplayFacts.SampleUserSafe | src/redbench.py:154-189 | the same for sampling a user from fresh copies of the library: it succeeds and is the replay from the fresh state |
| LibraryIndex.SortValuesSorted | src/utils.py:31-33 | the value lists are sorted, and stay duplicate-free |
| LibraryIndex.MapNumJoinsToQueries | src/utils.py:25-34 | the result maps each join count in the statistics to the sorted, duplicate-free list of exactly the queries with that join count |
| LibraryIndex.MapNumJoinsToTemplates | src/utils.py:37-45 | the result maps each join count to the sorted list of exactly the templates having a query with it, each once |
| LibraryIndex.MapTemplateToQueries | src/utils.py:48-55 | the result maps each template to the sorted list of exactly its queries |
| LibraryIndex.QueriesByJoinsUnique | src/utils.py:25-34 | only one map meets that specification, so the result does not depend on the iteration order |
| LibraryIndex.TemplatesByJoinsUnique | src/utils.py:37-45 | likewise for the templates by join count |
| LibraryIndex.QueriesByTemplateUnique | src/utils.py:48-55 | likewise for the queries by template |
| LibraryIndex.QueriesByTemplatePartition | src/utils.py:48-55 | the template lists are non-empty and partition the queries: each query is in exactly the list of its own template |
| LibraryIndex.BuiltLibraryValid | src/utils.py:25-55 | the three indexes as built form a valid library, and no query is listed under two templates; if each template has one join count, each template is listed under one join count only |
| Utils.AllParsedFields | src/utils.py:76 | `map(int, …)` succeeds exactly when every field parses, and each result is its field's value |
| Utils.ReadsetShape | src/utils.py:73-76 | a missing readset is the empty list; a present one is a sorted tuple, a permutation of its fields as integers |
| Utils.ReadsetOfCsv | src/utils.py:76 | the readset of a comma-joined list of integers is that list, sorted |
| Utils.ReadsetOrderIndependent | src/utils.py:76 | two listings of the same table ids in any order give the same readset |
| Utils.Wrap | src/utils.py:83-95 | the pieces joined with spaces give back the text; every piece but the last reaches the width and has no space at or beyond it; the last one is within the width or has no space beyond it |
| Utils.UserKeyRoundTrip | src/utils.py:141-145 | `parse_user_key` gives back the user id and instance id a key was built from |
| Utils.UserKeyWithoutHash | src/utils.py:141-145 | a key without `#` is refused, by the index when its text is a number |
| Imdb.LeadingDigits | src/benchmarks/imdb.py:69 | the match of the leading-digits pattern is the longest all-digit prefix of the name |
| Imdb.FieldsOfPath | src/benchmarks/imdb.py:64-66 | a path under the benchmark directory yields its benchmark and file name as fields |
| Imdb.JobTemplate | src/benchmarks/imdb.py:64-69 | a JOB query's template is the leading number of its file name; without one the match raises `AttributeError` |
| Imdb.JobNoLeadingDigit | src/benchmarks/imdb.py:69 | a JOB file name that does not start with a digit fails with `AttributeError` |
| Imdb.JobExample | src/benchmarks/imdb.py:68-69 | `imdb/benchmarks/job/12a.sql` has template `12` |
| Imdb.CebTemplate | src/benchmarks/imdb.py:70-72 | a CEB+ query's template is its directory name |
| Imdb.UnknownBenchmark | src/benchmarks/imdb.py:70 | a path of any other benchmark fails the assertion |
| Imdb.OutsideBenchmarks | src/benchmarks/imdb.py:64 | a path outside `imdb/benchmarks/` fails with `IndexError` |
| Tpcds.QueriesDirFields | src/benchmarks/tpcds.py:27 | the queries directory `tpcds/{scale}gb/queries` splits at `/` into `tpcds`, the scale directory `<scale>gb` and `queries` |
| Tpcds.TemplateRoundTrip | src/benchmarks/tpcds.py:29-31 | the template extracted from the path a query file is written to is its template number |
| Tpcds.ExtractAfterDir | src/benchmarks/tpcds.py:31 | the template is the second `/` field after the queries directory |
| Tpcds.WrongDirectory | src/benchmarks/tpcds.py:30 | a path outside the queries directory fails the assertion |
| Tpcds.MatchPrefix | src/benchmarks/tpcds.py:34 | a match of `(\d+)\s+days` is a non-empty run of digits at the start, covered by the match |
| Tpcds.LeftmostMatch | src/benchmarks/tpcds.py:33-36 | the rewrite copies the text up to the leftmost match, replaces it by `INTERVAL 'N' DAY` and continues after it |
| Tpcds.NoMatchUnchanged | src/benchmarks/tpcds.py:33-36 | a text without a match is unchanged |
| Tpcds.NoDigitUnchanged | src/benchmarks/tpcds.py:33-36 | a text without digits is unchanged |
| Tpcds.DaysExample | src/benchmarks/tpcds.py:34-36 | `30 Days` becomes `INTERVAL '30' DAY`, case-insensitively |
| Tpcds.StripAll | src/benchmarks/tpcds.py:72 | each line is stripped, in order |
| Tpcds.NonBlankStripped | src/benchmarks/tpcds.py:76 | the kept statements are exactly the non-blank stripped pieces |
| Tpcds.StatementsShape | src/benchmarks/tpcds.py:75-77 | every statement is non-empty, stripped and free of `;`, and every non-blank piece is one |
| Tpcds.GeneratedStatementsShape | src/benchmarks/tpcds.py:72-77 | the same for the statements of the generated query file |
| UserStats.ReadsetKeyFacts | src/user_stats.py:74 | the readset key is a string-sorted permutation of the comma fields, never empty |
| UserStats.ReadsetsUpToMembers | src/user_stats.py:71-75 | a readset belongs to a user exactly when some query of that user has it |
| UserStats.CollectReadsets | src/user_stats.py:71-75 | the loop fails exactly when some query has no readset; otherwise it maps each user of the trace to exactly that user's readsets |
| UserStats.CollectStep | src/user_stats.py:72-75 | one iteration keeps that relation for the queries seen so far |
| UserStats.SizesBound | src/user_stats.py:78-82 | a user has at least one readset size, and no more sizes than readsets |
| UserStats.ReadsetStats | src/user_stats.py:78-82 | every user with readsets gets statistics |
| UserStats.TraceStats | src/user_stats.py:71-82 | a user's readset count is the number of distinct readsets in their queries, and it bounds the count of distinct sizes |
| UserStats.StringOrderExample | src/user_stats.py:74 | the ids are sorted as strings: `9,10` gives `("10", "9")` |
| Unpack.TerminateEnds | setup.py:28-29 | a query is stripped and ends with `;`, adding at most one character |
| Unpack.TerminateIdempotent | setup.py:29 | terminating a terminated query changes nothing |
| Unpack.FragmentOf | setup.py:26-30 | a row fails with `FileNotFoundError` exactly when its path is not a file; otherwise its text opens with the comment line `-- <path>` and closes with the query's `;` and a blank line |
| Unpack.ScriptSucceeds | setup.py:24-30 | a CSV inlines exactly when every row's path is a file |
| Unpack.ScriptExtend | setup.py:24-30 | each row appends its fragment, or stops at the first error |
| Unpack.UnpackCsv | setup.py:20-30 | the loop over the rows computes the script of the CSV and counts its rows |
| Unpack.GroupSkip | setup.py:17-18 | a file that is not a workload CSV, or is `stats.csv`, is skipped |
| Unpack.GroupAdd | setup.py:19-35 | a workload CSV adds one SQL file, named with `.sql` for `.csv`, or stops the group with its error |
| Unpack.TallyCounts | setup.py:25 | the running tally of queries per group equals the specification count |
| Unpack.UnpackGroup | setup.py:16-35 | the loop over a group's files computes the group's SQL files and query count |
| Unpack.UnpackWorkloads | setup.py:10-35 | the loop over all groups computes all SQL files and the query count of every group |
| Unpack.HeaderAndFilter | setup.py:17-21 | a skipped file adds nothing; a workload CSV counts one query per line after its header |
| Stats.PathColumns | src/redbench.py:313-325 | the six path columns are `n_occurrences_step_2`, `_5`, `_3_to_6`, `_3_to_7`, `_4_to_6` and `_4_to_7`, in that order |
| Stats.DigitColumn | src/redbench.py:322-323 | path `2` becomes column `n_occurrences_step_2` |
| Stats.ArrowColumn | src/redbench.py:322-323 | path `3 -> 6` becomes column `n_occurrences_step_3_to_6` |
| Stats.StatsHeaderColumns | src/redbench.py:318-328 | the header has the seven user columns followed by one column per path, and splits back into them |
| Stats.CountFieldsParse | src/redbench.py:344-346 | there is one count field per path, and each reads back with `int()` as the user's count for that path |
| Stats.PathCountsJoin | src/redbench.py:343-346 | writing `,` and the count path by path equals joining the fields with commas |
| Stats.StatsRow | src/redbench.py:329-347 | a row fails exactly when the user key cannot be parsed |
| Stats.StatsFileFails | src/redbench.py:329-336 | the stats file fails exactly when some sampled user's key cannot be parsed |
| Stats.StatsRowFields | src/redbench.py:329-347 | a row splits into the user fields and one count per path, as many fields as header columns |
| Stats.StatsRowOfRun | src/redbench.py:337 | for a replayed user, the number-of-queries field is the length of the timeline |
| Strings.SplitJoin | setup.py:26 | joining the pieces of a split with its separator gives back the text |
| Strings.ReadLinesJoin | setup.py:21 | `readlines` of lines joined by line breaks gives each line back, terminated except the last |
| Strings.StripIdempotent | setup.py:28 | stripping twice is stripping once |
| Strings.IntRoundTrip | src/utils.py:143-144 | `int(str(n)) == n` |
| Sorting.Sort | src/utils.py:32 | `sorted` returns a permutation of its input |
| Sorting.SortSorted | src/utils.py:32 | under a total order, the result of `sorted` is ordered |
| Sorting.SortFacts | src/utils.py:32 | the sorted list is ordered, holds exactly the elements of its input, and has no duplicates when its input has none |
| Sorting.SortCanonical | src/utils.py:76 | under a total order, two permutations of each other sort to the same list |
| Sorting.StringLeTotal | src/user_stats.py:74 | Python's string comparison is a total order |

## Left out

- The DuckDB queries (the timeline fetch, the `_sample_users` ranking, the user statistics SQL) and the plotting. The model takes their results as values.
- File and directory I/O. Directory listings are sequences in a given order. The files `setup.py` reads are a map from path to text. Written files are strings.
- Python's `random` module: `random.shuffle` and `random.choice` are the `Oracle` parameter. The model's choice index is taken modulo the length of the list.
- `normalize_num_joins` of each benchmark is the parameter `normalize`. No property of its rounding is claimed.
- Allocation.Normalized: the division is over reals; Python's floating-point rounding is not modelled.
- `\d` and the digits `int()` accepts are ASCII only; Unicode digits and `int()`'s underscores are not modelled. Whitespace (`\s`, `str.strip()`) is the full `str.isspace()` set, and `re.IGNORECASE` on `days` includes the long s. `readlines`' universal-newline handling is not modelled.
- The state the allocator leaves after an exception is not modelled: an exception ends the run as an `Err`.
- Partially written files are not modelled. A failing stats row makes the whole stats file an `Err`. Likewise `setup.py` writes each `.sql` file as soon as its CSV is done (setup.py:32-35), so files written before a later `FileNotFoundError` stay on disk, while Unpack.GroupAdd and Unpack.UnpackGroup turn the whole group into an `Err`.
- Stats.StatsRow: the repetition rate is a given text; the `:.3f` float formatting is not modelled.
- Redbench.PickSample: the model records which of the three picks share a user record. It does not model the records themselves, which the later label assignments overwrite.
- UserStats.ReadsetStats: its contract gives only the users; the counts are stated by UserStats.TraceStats.
- Threading, logging and the timing of the generator.
- The SQL text of the benchmark queries is not parsed. A query file is just its text.
