/**
 * The three lookup structures built from the benchmark library's per-query
 * statistics (src/utils.py, `map_num_joins_to_ceb_queries`,
 * `map_num_joins_to_ceb_templates`, `map_ceb_template_to_ceb_queries`).
 *
 * The statistics are a dict from a query file path to its join count and
 * template. The builders walk it in dict order, grouping into lists, and then
 * sort each list. Here the walk picks the entries in an arbitrary order; each
 * builder's postcondition pins its result down completely, and the
 * `...Unique` lemmas show that any order gives the same result.
 */
module LibraryIndex {
  import opened Sorting

  /** The statistics of one library query file. */
  datatype Stat = Stat(numJoins: int, template: string)

  type Stats = map<string, Stat>

  /** The three indexes the allocator works from. */
  datatype Library = Library(
    queriesByJoins: map<int, seq<string>>,
    templatesByJoins: map<int, seq<string>>,
    queriesByTemplate: map<string, seq<string>>)

  /** The join counts of the given library files. */
  ghost function JoinCountsOf(stats: Stats, files: set<string>): set<int>
    requires files <= stats.Keys
  {
    set f | f in files :: stats[f].numJoins
  }

  /** The templates of the given library files. */
  ghost function TemplatesOf(stats: Stats, files: set<string>): set<string>
    requires files <= stats.Keys
  {
    set f | f in files :: stats[f].template
  }

  ghost function JoinCounts(stats: Stats): set<int> {
    JoinCountsOf(stats, stats.Keys)
  }

  ghost function Templates(stats: Stats): set<string> {
    TemplatesOf(stats, stats.Keys)
  }

  /** Some library query has join count `k` and template `t`. */
  ghost predicate HasEntry(stats: Stats, files: set<string>, k: int, t: string) {
    exists f :: f in files && f in stats && stats[f] == Stat(k, t)
  }

  /** Library file `f` has join count `k`. */
  ghost predicate HasJoins(stats: Stats, f: string, k: int) {
    f in stats && stats[f].numJoins == k
  }

  /** Library file `f` has template `t`. */
  ghost predicate HasTemplate(stats: Stats, f: string, t: string) {
    f in stats && stats[f].template == t
  }

  ghost predicate SortedDistinct(s: seq<string>) {
    SortedBy(s, StringLe) && NoDup(s)
  }

  /** What `map_num_joins_to_ceb_queries` returns: every path in the sorted list of its join count. */
  ghost predicate IsQueriesByJoins(stats: Stats, res: map<int, seq<string>>) {
    && res.Keys == JoinCounts(stats)
    && (forall k :: k in res ==> SortedDistinct(res[k]))
    && (forall k, f :: k in res ==> (f in res[k] <==> HasJoins(stats, f, k)))
  }

  /** What `map_num_joins_to_ceb_templates` returns: the sorted distinct templates of each join count. */
  ghost predicate IsTemplatesByJoins(stats: Stats, res: map<int, seq<string>>) {
    && res.Keys == JoinCounts(stats)
    && (forall k :: k in res ==> SortedDistinct(res[k]))
    && (forall k, t :: k in res ==> (t in res[k] <==> HasEntry(stats, stats.Keys, k, t)))
  }

  /** What `map_ceb_template_to_ceb_queries` returns: the sorted paths of each template. */
  ghost predicate IsQueriesByTemplate(stats: Stats, res: map<string, seq<string>>) {
    && res.Keys == Templates(stats)
    && (forall t :: t in res ==> SortedDistinct(res[t]))
    && (forall t, f :: t in res ==> (f in res[t] <==> HasTemplate(stats, f, t)))
  }

  /** Sort every list of a map; the comprehension that ends each builder. */
  function SortValues<K>(m: map<K, seq<string>>): (r: map<K, seq<string>>)
    ensures r.Keys == m.Keys
  {
    map k | k in m :: Sort(m[k], StringLe)
  }

  /** Each sorted list is sorted and keeps a duplicate-free list duplicate-free. */
  lemma SortValuesSorted<K>(m: map<K, seq<string>>, k: K)
    requires k in m
    ensures SortedBy(SortValues(m)[k], StringLe)
    ensures NoDup(m[k]) ==> NoDup(SortValues(m)[k])
  {
    StringLeTotal();
    SortFacts(m[k], StringLe);
  }

  /** Each sorted list has the elements of the original. */
  lemma SortValuesMembers<K>(m: map<K, seq<string>>, k: K, x: string)
    requires k in m
    ensures x in SortValues(m)[k] <==> x in m[k]
  {
    StringLeTotal();
    SortFacts(m[k], StringLe);
  }

  /** `map_num_joins_to_ceb_queries` (src/utils.py:25-34). */
  method MapNumJoinsToQueries(stats: Stats) returns (res: map<int, seq<string>>)
    ensures IsQueriesByJoins(stats, res)
  {
    var acc: map<int, seq<string>> := map[];
    var todo := stats.Keys;
    ghost var done: set<string> := {};
    while todo != {}
      invariant todo + done == stats.Keys && todo !! done
      invariant acc.Keys == JoinCountsOf(stats, done)
      invariant forall k :: k in acc ==> NoDup(acc[k])
      invariant forall k, f :: k in acc ==> (f in acc[k] <==> f in done && HasJoins(stats, f, k))
      decreases todo
    {
      var f :| f in todo;
      var k := stats[f].numJoins;
      var list := if k in acc then acc[k] else [];
      assert f !in list;
      NoDupAppend(list, f);
      assert JoinCountsOf(stats, done + {f}) == JoinCountsOf(stats, done) + {k};
      acc := acc[k := list + [f]];
      todo := todo - {f};
      done := done + {f};
    }
    res := SortValues(acc);
    SortedQueriesByJoins(stats, done, acc, res);
  }

  /** `map_num_joins_to_ceb_templates` (src/utils.py:37-45). */
  method MapNumJoinsToTemplates(stats: Stats) returns (res: map<int, seq<string>>)
    ensures IsTemplatesByJoins(stats, res)
  {
    var acc: map<int, seq<string>> := map[];
    var todo := stats.Keys;
    ghost var done: set<string> := {};
    while todo != {}
      invariant todo + done == stats.Keys && todo !! done
      invariant acc.Keys == JoinCountsOf(stats, done)
      invariant forall k :: k in acc ==> NoDup(acc[k])
      invariant forall k, t :: k in acc ==> (t in acc[k] <==> HasEntry(stats, done, k, t))
      decreases todo
    {
      var f :| f in todo;
      var k, t := stats[f].numJoins, stats[f].template;
      var list := if k in acc then acc[k] else [];
      if t !in list {
        list := list + [t];
      }
      acc := acc[k := list];
      assert JoinCountsOf(stats, done + {f}) == JoinCountsOf(stats, done) + {k};
      todo := todo - {f};
      done := done + {f};
      forall k', t' | k' in acc && HasEntry(stats, done, k', t') ensures t' in acc[k'] {
        var g :| g in done && g in stats && stats[g] == Stat(k', t');
        if g != f {
          assert HasEntry(stats, done - {f}, k', t');
        }
      }
    }
    res := SortValues(acc);
    forall k | k in res ensures SortedDistinct(res[k]) {
      SortValuesSorted(acc, k);
    }
    forall k, t | k in res ensures t in res[k] <==> HasEntry(stats, stats.Keys, k, t) {
      SortValuesMembers(acc, k, t);
    }
  }

  /** `map_ceb_template_to_ceb_queries` (src/utils.py:48-55). */
  method MapTemplateToQueries(stats: Stats) returns (res: map<string, seq<string>>)
    ensures IsQueriesByTemplate(stats, res)
  {
    var acc: map<string, seq<string>> := map[];
    var todo := stats.Keys;
    ghost var done: set<string> := {};
    while todo != {}
      invariant todo + done == stats.Keys && todo !! done
      invariant acc.Keys == TemplatesOf(stats, done)
      invariant forall t :: t in acc ==> NoDup(acc[t])
      invariant forall t, f :: t in acc ==> (f in acc[t] <==> f in done && HasTemplate(stats, f, t))
      decreases todo
    {
      var f :| f in todo;
      var t := stats[f].template;
      var list := if t in acc then acc[t] else [];
      assert f !in list;
      NoDupAppend(list, f);
      assert TemplatesOf(stats, done + {f}) == TemplatesOf(stats, done) + {t};
      acc := acc[t := list + [f]];
      todo := todo - {f};
      done := done + {f};
    }
    res := SortValues(acc);
    SortedQueriesByTemplate(stats, done, acc, res);
  }

  lemma SortedQueriesByJoins(stats: Stats, done: set<string>, acc: map<int, seq<string>>, res: map<int, seq<string>>)
    requires done == stats.Keys && acc.Keys == JoinCountsOf(stats, done)
    requires forall k :: k in acc ==> NoDup(acc[k])
    requires forall k, f :: k in acc ==> (f in acc[k] <==> f in done && HasJoins(stats, f, k))
    requires res == SortValues(acc)
    ensures IsQueriesByJoins(stats, res)
  {
    forall k | k in res ensures SortedDistinct(res[k]) {
      SortValuesSorted(acc, k);
    }
    forall k, f | k in res ensures f in res[k] <==> HasJoins(stats, f, k) {
      SortValuesMembers(acc, k, f);
    }
  }

  lemma SortedQueriesByTemplate(stats: Stats, done: set<string>, acc: map<string, seq<string>>, res: map<string, seq<string>>)
    requires done == stats.Keys && acc.Keys == TemplatesOf(stats, done)
    requires forall t :: t in acc ==> NoDup(acc[t])
    requires forall t, f :: t in acc ==> (f in acc[t] <==> f in done && HasTemplate(stats, f, t))
    requires res == SortValues(acc)
    ensures IsQueriesByTemplate(stats, res)
  {
    forall t | t in res ensures SortedDistinct(res[t]) {
      SortValuesSorted(acc, t);
    }
    forall t, f | t in res ensures f in res[t] <==> HasTemplate(stats, f, t) {
      SortValuesMembers(acc, t, f);
    }
  }

  // ---------------------------------------------------------------- determinism

  /** Duplicate-free sequences with the same elements have the same multiset. */
  lemma SameElementsSameMultiset(a: seq<string>, b: seq<string>)
    requires NoDup(a) && NoDup(b)
    requires forall x :: x in a <==> x in b
    ensures multiset(a) == multiset(b)
  {
    forall x ensures multiset(a)[x] == multiset(b)[x] {
      if x in a {
        var i :| 0 <= i < |a| && a[i] == x;
        var j :| 0 <= j < |b| && b[j] == x;
        NoDupCount(a, i);
        NoDupCount(b, j);
      }
    }
  }

  lemma SortedDistinctUnique(a: seq<string>, b: seq<string>)
    requires SortedDistinct(a) && SortedDistinct(b)
    requires forall x :: x in a <==> x in b
    ensures a == b
  {
    StringLeTotal();
    SameElementsSameMultiset(a, b);
    SortedUnique(a, b, StringLe);
  }

  /** The join-count index does not depend on the order the statistics are visited in. */
  lemma QueriesByJoinsUnique(stats: Stats, r1: map<int, seq<string>>, r2: map<int, seq<string>>)
    requires IsQueriesByJoins(stats, r1) && IsQueriesByJoins(stats, r2)
    ensures r1 == r2
  {
    forall k | k in r1 ensures r1[k] == r2[k] {
      assert forall x :: x in r1[k] <==> x in stats && stats[x].numJoins == k;
      assert forall x :: x in r2[k] <==> x in stats && stats[x].numJoins == k;
      SortedDistinctUnique(r1[k], r2[k]);
    }
  }

  lemma TemplatesByJoinsUnique(stats: Stats, r1: map<int, seq<string>>, r2: map<int, seq<string>>)
    requires IsTemplatesByJoins(stats, r1) && IsTemplatesByJoins(stats, r2)
    ensures r1 == r2
  {
    forall k | k in r1 ensures r1[k] == r2[k] {
      SortedDistinctUnique(r1[k], r2[k]);
    }
  }

  lemma QueriesByTemplateUnique(stats: Stats, r1: map<string, seq<string>>, r2: map<string, seq<string>>)
    requires IsQueriesByTemplate(stats, r1) && IsQueriesByTemplate(stats, r2)
    ensures r1 == r2
  {
    forall t | t in r1 ensures r1[t] == r2[t] {
      assert forall x :: x in r1[t] <==> x in stats && stats[x].template == t;
      assert forall x :: x in r2[t] <==> x in stats && stats[x].template == t;
      SortedDistinctUnique(r1[t], r2[t]);
    }
  }

  // ---------------------------------------------------------------- the library invariant

  /** The template index partitions the paths: each path is in exactly the list of its template, and no list is empty. */
  lemma QueriesByTemplatePartition(stats: Stats, res: map<string, seq<string>>)
    requires IsQueriesByTemplate(stats, res)
    ensures forall t :: t in res ==> |res[t]| > 0
    ensures forall f :: f in stats ==> stats[f].template in res && f in res[stats[f].template]
    ensures forall f, t :: t in res && f in res[t] ==> t == stats[f].template
  {
    forall t | t in res ensures |res[t]| > 0 {
      var f :| f in stats && stats[f].template == t;
      assert f in res[t];
    }
  }

  /** Every template has a single join count, as the library statistics are checked to guarantee. */
  ghost predicate SingleJoinCount(stats: Stats) {
    forall f, g :: f in stats && g in stats && stats[f].template == stats[g].template ==>
      stats[f].numJoins == stats[g].numJoins
  }

  /** The facts about the three indexes that the allocator's lookups rely on. */
  ghost predicate ValidLibrary(lib: Library) {
    && lib.queriesByJoins.Keys == lib.templatesByJoins.Keys
    && (forall k :: k in lib.queriesByJoins ==> |lib.queriesByJoins[k]| > 0)
    && (forall k :: k in lib.templatesByJoins ==> NoDup(lib.templatesByJoins[k]))
    && (forall k, t :: k in lib.templatesByJoins && t in lib.templatesByJoins[k] ==> t in lib.queriesByTemplate)
    && (forall t :: t in lib.queriesByTemplate ==> |lib.queriesByTemplate[t]| > 0 && NoDup(lib.queriesByTemplate[t]))
  }

  /** A template occurs under one join count only. */
  ghost predicate TemplatesUnique(lib: Library) {
    forall k1, k2, t ::
      (k1 in lib.templatesByJoins && k2 in lib.templatesByJoins
       && t in lib.templatesByJoins[k1] && t in lib.templatesByJoins[k2]) ==> k1 == k2
  }

  /** No query belongs to the lists of two templates. */
  ghost predicate PoolsDisjoint(lib: Library) {
    forall t1, t2, x ::
      (t1 in lib.queriesByTemplate && t2 in lib.queriesByTemplate
       && x in lib.queriesByTemplate[t1] && x in lib.queriesByTemplate[t2]) ==> t1 == t2
  }

  /** The indexes the builders return satisfy the library invariant. */
  lemma BuiltLibraryValid(stats: Stats, lib: Library)
    requires IsQueriesByJoins(stats, lib.queriesByJoins)
    requires IsTemplatesByJoins(stats, lib.templatesByJoins)
    requires IsQueriesByTemplate(stats, lib.queriesByTemplate)
    ensures ValidLibrary(lib) && PoolsDisjoint(lib)
    ensures SingleJoinCount(stats) ==> TemplatesUnique(lib)
  {
    QueriesByTemplatePartition(stats, lib.queriesByTemplate);
    forall k | k in lib.queriesByJoins ensures |lib.queriesByJoins[k]| > 0 {
      var f :| f in stats && stats[f].numJoins == k;
      assert f in lib.queriesByJoins[k];
    }
    forall k, t | k in lib.templatesByJoins && t in lib.templatesByJoins[k]
      ensures t in lib.queriesByTemplate
    {
      var f :| f in stats.Keys && f in stats && stats[f] == Stat(k, t);
      assert t in Templates(stats);
    }
    if SingleJoinCount(stats) {
      forall k1, k2, t |
        && k1 in lib.templatesByJoins && k2 in lib.templatesByJoins
        && t in lib.templatesByJoins[k1] && t in lib.templatesByJoins[k2]
        ensures k1 == k2
      {
        var f :| f in stats.Keys && f in stats && stats[f] == Stat(k1, t);
        var g :| g in stats.Keys && g in stats && stats[g] == Stat(k2, t);
      }
    }
  }
}
