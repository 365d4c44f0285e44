/**
 * What the allocation rules of src/redbench.py guarantee: the fallback takes
 * the first template with instances left, the greedy scan takes the first
 * template with the most instances left, retiring a template removes it from
 * every list, a cached query changes nothing, each new allocation counts one
 * decision path and is cached, pools only lose instances, and the state
 * invariant that rules out every lookup failure is preserved.
 */
module AllocationFacts {
  import opened Wrappers
  import opened Sorting
  import opened LibraryIndex
  import opened Utils
  import opened Allocation

  // ---------------------------------------------------------------- step 6

  /** Every template of `pool` before index `i` has a pool, and it is empty. */
  ghost predicate Exhausted(pool: seq<string>, unused: map<string, seq<string>>, i: int)
    requires i <= |pool|
  {
    forall j :: 0 <= j < i ==> pool[j] in unused && |unused[pool[j]]| == 0
  }

  /**
   * The fallback takes the first template of the shuffled list that has an
   * unused instance; it finds none exactly when every template's pool is
   * empty; and it fails on the first template that has no pool at all.
   */
  lemma {:induction false} FirstWithPoolIsFirst(pool: seq<string>, unused: map<string, seq<string>>)
    ensures FirstWithPool(pool, unused) == Ok(None) <==> Exhausted(pool, unused, |pool|)
    ensures FirstWithPool(pool, unused).Ok? && FirstWithPool(pool, unused).value.Some? ==>
      exists i :: 0 <= i < |pool| && pool[i] == FirstWithPool(pool, unused).value.value && Exhausted(pool, unused, i)
    ensures FirstWithPool(pool, unused).Err? ==>
      exists i :: 0 <= i < |pool| && pool[i] !in unused && Exhausted(pool, unused, i)
  {
    if pool != [] && pool[0] in unused && |unused[pool[0]]| == 0 {
      var rest := pool[1..];
      FirstWithPoolIsFirst(rest, unused);
      var r := FirstWithPool(rest, unused);
      assert forall j :: 1 <= j <= |pool| ==> (Exhausted(pool, unused, j) <==> Exhausted(rest, unused, j - 1)) by {
        forall j | 1 <= j <= |pool| ensures Exhausted(pool, unused, j) <==> Exhausted(rest, unused, j - 1) {
          assert forall i :: 1 <= i < j ==> pool[i] == rest[i - 1];
        }
      }
      if r.Ok? && r.value.Some? {
        var i :| 0 <= i < |rest| && rest[i] == r.value.value && Exhausted(rest, unused, i);
        assert pool[i + 1] == rest[i];
      }
      if r.Err? {
        var i :| 0 <= i < |rest| && rest[i] !in unused && Exhausted(rest, unused, i);
        assert pool[i + 1] == rest[i];
      }
    }
  }

  // ---------------------------------------------------------------- the greedy scan

  /**
   * `b` is the greedy choice among `cands`: no candidate has more unused
   * instances than `b.value`, and the chosen template is the first that has
   * exactly that many, which is more than zero; with no choice, every
   * candidate's pool is empty.
   */
  ghost predicate IsBest(cands: seq<string>, unused: map<string, seq<string>>, b: Best) {
    && (forall j :: 0 <= j < |cands| ==> Size(unused, cands[j]) <= b.value)
    && (b.template.None? ==> b.value == 0)
    && (b.template.Some? ==>
          b.value > 0 && exists i :: FirstAt(cands, unused, i, b.value) && cands[i] == b.template.value)
  }

  /** Position `i` is the first candidate whose pool has `v` instances. */
  ghost predicate FirstAt(cands: seq<string>, unused: map<string, seq<string>>, i: int, v: nat) {
    0 <= i < |cands| && Size(unused, cands[i]) == v && forall j :: 0 <= j < i ==> Size(unused, cands[j]) < v
  }

  /** The scan succeeds exactly when every candidate has a pool, and then it makes the greedy choice. */
  lemma {:induction false} ScanIsGreedy(cands: seq<string>, unused: map<string, seq<string>>)
    ensures Scan(cands, unused).Ok? <==> forall j :: 0 <= j < |cands| ==> cands[j] in unused
    ensures Scan(cands, unused).Ok? ==> IsBest(cands, unused, Scan(cands, unused).value)
  {
    if cands != [] {
      var front := cands[..|cands| - 1];
      var c := cands[|cands| - 1];
      ScanIsGreedy(front, unused);
      assert forall j :: 0 <= j < |front| ==> front[j] == cands[j];
      var prev := Scan(front, unused);
      if prev.Err? {
        assert Scan(cands, unused).Err?;
      } else if c !in unused {
        assert Scan(cands, unused).Err?;
      } else if |unused[c]| > prev.value.value {
        var b := Best(Some(c), |unused[c]|);
        assert Scan(cands, unused) == Ok(b);
        assert FirstAt(cands, unused, |cands| - 1, b.value);
      } else {
        var b := prev.value;
        assert Scan(cands, unused) == Ok(b);
        if b.template.Some? {
          var i :| FirstAt(front, unused, i, b.value) && front[i] == b.template.value;
          assert FirstAt(cands, unused, i, b.value);
        }
      }
    }
  }

  /** The greedy choice is unique: this is the tie-break "first in list order". */
  lemma BestUnique(cands: seq<string>, unused: map<string, seq<string>>, b1: Best, b2: Best)
    requires IsBest(cands, unused, b1) && IsBest(cands, unused, b2)
    ensures b1 == b2
  {
    if b1.template.Some? {
      var i :| FirstAt(cands, unused, i, b1.value) && cands[i] == b1.template.value;
      if b2.template.Some? {
        var i2 :| FirstAt(cands, unused, i2, b2.value) && cands[i2] == b2.template.value;
        assert b1.value == b2.value;
        assert !(i < i2) && !(i2 < i);
      }
    }
  }

  // ---------------------------------------------------------------- retirement

  /** Removing a template from a duplicate-free list leaves a duplicate-free list without it and with everything else. */
  lemma {:induction false} RemoveFirstNoDup(s: seq<string>, x: string)
    requires NoDup(s)
    ensures NoDup(RemoveFirst(s, x)) && x !in RemoveFirst(s, x)
    ensures forall y :: y != x ==> (y in RemoveFirst(s, x) <==> y in s)
  {
    if s != [] {
      var rest := s[1..];
      assert s == [s[0]] + rest;
      assert NoDup(rest) && s[0] !in rest by {
        assert forall i :: 0 <= i < |rest| ==> rest[i] == s[i + 1];
      }
      if s[0] != x {
        RemoveFirstNoDup(rest, x);
        ConsNoDup(s[0], RemoveFirst(rest, x));
      }
    }
  }

  lemma ConsNoDup(x: string, s: seq<string>)
    requires NoDup(s) && x !in s
    ensures NoDup([x] + s)
  {
    assert forall i :: 1 <= i < |[x] + s| ==> ([x] + s)[i] == s[i - 1];
  }

  /**
   * After retiring `t`, no list of unbound templates holds it, and every other
   * template is still in exactly the lists it was in.
   */
  lemma RetireEverywhere(unmapped: map<int, seq<string>>, t: string)
    requires forall k :: k in unmapped ==> NoDup(unmapped[k])
    ensures Holders(Retire(unmapped, t), t) == {}
    ensures forall k :: k in unmapped ==> NoDup(Retire(unmapped, t)[k])
    ensures forall k, x :: k in unmapped && x != t ==> (x in Retire(unmapped, t)[k] <==> x in unmapped[k])
  {
    forall k | k in unmapped
      ensures NoDup(Retire(unmapped, t)[k]) && t !in Retire(unmapped, t)[k]
      ensures forall x :: x != t ==> (x in Retire(unmapped, t)[k] <==> x in unmapped[k])
    {
      RemoveFirstNoDup(unmapped[k], t);
    }
  }

  // ---------------------------------------------------------------- one query

  /** A cached query hash gets its instance again and changes nothing. */
  lemma CacheHit(lib: Library, st: State, q: UserQuery, oracle: Oracle)
    requires q.queryHash in st.cache && ReadsetOf(q.readTableIds).Ok?
    ensures Sample(lib, st, q, oracle) == Ok(Outcome(Some(st.cache[q.queryHash]), st))
  {
  }

  /** The readset is parsed before the cache is consulted: a malformed one fails every query. */
  lemma MalformedReadset(lib: Library, st: State, q: UserQuery, oracle: Oracle)
    requires ReadsetOf(q.readTableIds).Err?
    ensures Sample(lib, st, q, oracle).Err? && Sample(lib, st, q, oracle).error.ValueError?
  {
  }

  /** A new query that is not a select gets no instance and changes nothing. */
  lemma NewNonSelect(lib: Library, st: State, q: UserQuery, oracle: Oracle)
    requires q.queryHash !in st.cache && q.queryType != "select" && ReadsetOf(q.readTableIds).Ok?
    ensures Sample(lib, st, q, oracle) == Ok(Outcome(None, st))
  {
  }

  /** A new select query whose tables are unknown cannot be placed: `[]` is not hashable. */
  lemma NewWithoutReadset(lib: Library, st: State, q: UserQuery, oracle: Oracle)
    requires q.queryHash !in st.cache && q.queryType == "select" && q.readTableIds.None?
    ensures Sample(lib, st, q, oracle) == Err(TypeError("unhashable type: 'list'"))
  {
  }

  /** The six labels are those of the six paths, in the order of src/redbench.py:313, and are distinct. */
  lemma PathLabels()
    ensures Paths == [Label(Reuse), Label(Bind), Label(BoundFallback(Six)), Label(BoundFallback(Seven)),
                      Label(UnboundFallback(Six)), Label(UnboundFallback(Seven))]
    ensures NoDup(Paths)
    ensures forall p :: Label(p) in Paths
  {
    assert Label(BoundFallback(Six)) == "3 -> " + "6" == "3 -> 6";
    assert Label(BoundFallback(Seven)) == "3 -> " + "7" == "3 -> 7";
    assert Label(UnboundFallback(Six)) == "4 -> " + "6" == "4 -> 6";
    assert Label(UnboundFallback(Seven)) == "4 -> " + "7" == "4 -> 7";
    forall p ensures Label(p) in Paths {
      match p
      case Reuse =>
      case Bind =>
      case BoundFallback(f) => assert f == Six || f == Seven;
      case UnboundFallback(f) => assert f == Six || f == Seven;
    }
  }

  lemma {:induction false} TotalIncrement(counters: map<string, nat>, key: string, steps: seq<string>)
    requires NoDup(steps)
    ensures Total(Increment(counters, key), steps) == Total(counters, steps) + (if key in steps then 1 else 0)
  {
    if steps != [] {
      assert NoDup(steps[1..]) && steps[0] !in steps[1..] by {
        assert forall i :: 0 <= i < |steps[1..]| ==> steps[1..][i] == steps[i + 1];
      }
      TotalIncrement(counters, key, steps[1..]);
    }
  }

  /**
   * A new select query that is placed gets an instance, is cached under its
   * hash with that instance, and counts exactly one of the six decision
   * paths, so the counters of the paths grow by one, as the cache does.
   */
  lemma NewAllocation(lib: Library, st: State, q: UserQuery, oracle: Oracle)
    requires q.queryHash !in st.cache && q.queryType == "select"
    requires Sample(lib, st, q, oracle).Ok?
    ensures var o := Sample(lib, st, q, oracle).value;
      && o.instance.Some?
      && o.state.cache == st.cache[q.queryHash := o.instance.value]
      && |o.state.cache| == |st.cache| + 1
      && (exists key :: key in Paths && Count(o.state.counters, key) == Count(st.counters, key) + 1
            && forall other :: other != key ==> Count(o.state.counters, other) == Count(st.counters, other))
      && Total(o.state.counters, Paths) == Total(st.counters, Paths) + 1
  {
    var readset := ReadsetOf(q.readTableIds).value;
    SampleNew(lib, st, q, oracle);
    var p := Choose(lib, st, q.numJoins, readset, oracle).value;
    assert DecisionFrame(st, readset.ids, p) by {
      ChooseFrame(lib, st, q.numJoins, readset, oracle);
    }
    CommitAdds(st, p, q.queryHash);
  }

  /** Committing a decision for a new hash adds one cache entry and counts one decision path. */
  lemma CommitAdds(st: State, p: Pick, queryHash: string)
    requires p.state.cache == st.cache && p.state.counters == st.counters && queryHash !in st.cache
    ensures var c := Commit(p, queryHash);
      && c.cache == st.cache[queryHash := p.instance]
      && |c.cache| == |st.cache| + 1
      && (exists key :: key in Paths && Count(c.counters, key) == Count(st.counters, key) + 1
            && forall other :: other != key ==> Count(c.counters, other) == Count(st.counters, other))
      && Total(c.counters, Paths) == Total(st.counters, Paths) + 1
  {
    var key := Label(p.path);
    PathLabels();
    TotalIncrement(st.counters, key, Paths);
    assert key in Paths;
  }

  /** `t` lost its last unused instance, `instance`, and no other pool changed. */
  ghost predicate Took(before: map<string, seq<string>>, after: map<string, seq<string>>, t: string, instance: string) {
    t in before && |before[t]| > 0 && instance == Last(before[t]) && after == before[t := Pop(before[t])]
  }

  /**
   * What a decision changes: steps 2, 5 and 6 take the last instance of one
   * pool, step 7 takes none; only step 5 binds the readset, which was unbound,
   * and retires a template; the cache and the counters are left to the caller.
   */
  ghost predicate DecisionFrame(st: State, ids: seq<int>, p: Pick) {
    && p.state.cache == st.cache && p.state.counters == st.counters && p.state.draws >= st.draws
    && (Pops(p.path) ==> exists t :: Took(st.unused, p.state.unused, t, p.instance))
    && (!Pops(p.path) ==> p.state.unused == st.unused)
    && (p.path == Bind ==>
          && ids !in st.bindings
          && exists t :: p.state.bindings == st.bindings[ids := t] && p.state.unmapped == Retire(st.unmapped, t))
    && (p.path != Bind ==> p.state.bindings == st.bindings && p.state.unmapped == st.unmapped)
    && (p.path.Reuse? || p.path.BoundFallback? <==> ids in st.bindings)
  }

  /** Every decision that succeeds is for a readset tuple and keeps to `DecisionFrame`. */
  lemma ChooseFrame(lib: Library, st: State, n: int, readset: ReadsetValue, oracle: Oracle)
    requires Choose(lib, st, n, readset, oracle).Ok?
    ensures readset.Tuple? && DecisionFrame(st, readset.ids, Choose(lib, st, n, readset, oracle).value)
  {
    if readset.ids in st.bindings {
      BoundFrame(lib, st, n, readset.ids, oracle);
    } else {
      UnboundFrame(lib, st, n, readset.ids, oracle);
    }
  }

  lemma BoundFrame(lib: Library, st: State, n: int, ids: seq<int>, oracle: Oracle)
    requires ids in st.bindings && Bound(lib, st, n, st.bindings[ids], oracle).Ok?
    ensures DecisionFrame(st, ids, Bound(lib, st, n, st.bindings[ids], oracle).value)
  {
    var t := st.bindings[ids];
    var p := Bound(lib, st, n, t, oracle).value;
    if |st.unused[t]| > 0 {
      assert Took(st.unused, p.state.unused, t, p.instance);
    } else {
      Step6Frame(lib, st, n, oracle);
    }
  }

  lemma UnboundFrame(lib: Library, st: State, n: int, ids: seq<int>, oracle: Oracle)
    requires ids !in st.bindings && Unbound(lib, st, n, ids, oracle).Ok?
    ensures DecisionFrame(st, ids, Unbound(lib, st, n, ids, oracle).value)
  {
    var p := Unbound(lib, st, n, ids, oracle).value;
    var best := Scan(st.unmapped[n], st.unused).value;
    if best.value > 0 {
      var t := best.template.value;
      assert Took(st.unused, p.state.unused, t, p.instance);
      assert p.state.bindings == st.bindings[ids := t] && p.state.unmapped == Retire(st.unmapped, t);
    } else {
      Step6Frame(lib, st, n, oracle);
    }
  }

  lemma Step6Frame(lib: Library, st: State, n: int, oracle: Oracle)
    requires Step6(lib, st, n, oracle).Ok?
    ensures var p := Step6(lib, st, n, oracle).value;
      && p.state.cache == st.cache && p.state.counters == st.counters && p.state.draws >= st.draws
      && p.state.bindings == st.bindings && p.state.unmapped == st.unmapped
      && (p.final == Six ==> exists t :: Took(st.unused, p.state.unused, t, p.instance))
      && (p.final == Seven ==> p.state.unused == st.unused)
  {
    var p := Step6(lib, st, n, oracle).value;
    if p.final == Six {
      var found := FirstWithPool(oracle.shuffle(st.draws, lib.templatesByJoins[n]), st.unused).value;
      assert Took(st.unused, p.state.unused, found.value, p.instance);
    }
  }

  // ---------------------------------------------------------------- the decision paths

  /** Step 2: a readset bound to a template with unused instances takes the last of them. */
  lemma BoundReadsetPops(lib: Library, st: State, q: UserQuery, oracle: Oracle, ids: seq<int>)
    requires ReadsetOf(q.readTableIds) == Ok(Tuple(ids))
    requires q.queryHash !in st.cache && q.queryType == "select"
    requires ids in st.bindings && Size(st.unused, st.bindings[ids]) > 0
    ensures var t := st.bindings[ids];
      var r := Sample(lib, st, q, oracle);
      && r.Ok?
      && r.value.instance == Some(Last(st.unused[t]))
      && Took(st.unused, r.value.state.unused, t, Last(st.unused[t]))
      && r.value.state.unmapped == st.unmapped && r.value.state.bindings == st.bindings
      && Count(r.value.state.counters, "2") == Count(st.counters, "2") + 1
  {
  }

  /** Steps 3 -> 6 and 3 -> 7: a readset bound to a template without unused instances falls back. */
  lemma BoundReadsetFallsBack(lib: Library, st: State, q: UserQuery, oracle: Oracle, ids: seq<int>)
    requires ReadsetOf(q.readTableIds) == Ok(Tuple(ids))
    requires q.queryHash !in st.cache && q.queryType == "select"
    requires ids in st.bindings && st.bindings[ids] in st.unused && |st.unused[st.bindings[ids]]| == 0
    ensures var r := Sample(lib, st, q, oracle);
      var f := Step6(lib, st, q.numJoins, oracle);
      && (r.Ok? <==> f.Ok?)
      && (r.Ok? ==>
            && r.value.instance == Some(f.value.instance)
            && r.value.state.unused == f.value.state.unused
            && Count(r.value.state.counters, Label(BoundFallback(f.value.final)))
                 == Count(st.counters, Label(BoundFallback(f.value.final))) + 1)
  {
    var t := st.bindings[ids];
    var b := Bound(lib, st, q.numJoins, t, oracle);
    assert Sample(lib, st, q, oracle) == if b.Ok? then Ok(Outcome(Some(b.value.instance), Commit(b.value, q.queryHash))) else Err(b.error) by {
      SampleNew(lib, st, q, oracle);
      assert Choose(lib, st, q.numJoins, Tuple(ids), oracle) == b;
    }
    var f := Step6(lib, st, q.numJoins, oracle);
    if f.Ok? {
      var p := Pick(f.value.instance, BoundFallback(f.value.final), f.value.state);
      assert b == Ok(p);
      assert f.value.state.counters == st.counters by {
        Step6Frame(lib, st, q.numJoins, oracle);
      }
      var c := Commit(p, q.queryHash);
      assert c.unused == f.value.state.unused && Count(c.counters, Label(p.path)) == Count(st.counters, Label(p.path)) + 1 by {
        CommitKeeps(p, q.queryHash);
      }
    } else {
      assert b.Err?;
    }
  }

  /**
   * Step 5: a readset never seen, with some unbound template of its join count
   * that has unused instances, binds the greedy choice among those templates,
   * which exactly one list of unbound templates held, retires it and takes its
   * last instance.
   */
  lemma UnboundReadsetBinds(lib: Library, st: State, q: UserQuery, oracle: Oracle, ids: seq<int>)
    requires ReadsetOf(q.readTableIds) == Ok(Tuple(ids))
    requires q.queryHash !in st.cache && q.queryType == "select" && ids !in st.bindings
    requires q.numJoins in st.unmapped
    requires exists j :: 0 <= j < |st.unmapped[q.numJoins]| && Size(st.unused, st.unmapped[q.numJoins][j]) > 0
    requires Sample(lib, st, q, oracle).Ok?
    ensures exists t :: BindsBest(st, q.numJoins, ids, Sample(lib, st, q, oracle).value, t)
  {
    var n := q.numJoins;
    var u := Unbound(lib, st, n, ids, oracle);
    assert u.Ok? && Sample(lib, st, q, oracle) == Ok(Outcome(Some(u.value.instance), Commit(u.value, q.queryHash))) by {
      SampleNew(lib, st, q, oracle);
      assert Choose(lib, st, n, Tuple(ids), oracle) == u;
    }
    var t := UnboundBinds(lib, st, n, ids, oracle);
    var o := Sample(lib, st, q, oracle).value;
    assert BindsBest(st, n, ids, o, t) by {
      CommitKeeps(u.value, q.queryHash);
      assert Label(Bind) == "5";
    }
  }

  /**
   * Outcome `o` bound readset `ids` to `t`, the greedy choice among the unbound
   * templates of join count `n`, which only the list of `n` held: `t` is
   * retired, its last instance taken and step 5 counted.
   */
  ghost predicate BindsBest(st: State, n: int, ids: seq<int>, o: Outcome, t: string)
    requires n in st.unmapped
  {
    && IsBest(st.unmapped[n], st.unused, Best(Some(t), Size(st.unused, t)))
    && Holders(st.unmapped, t) == {n}
    && o.state.bindings == st.bindings[ids := t]
    && o.state.unmapped == Retire(st.unmapped, t)
    && o.instance == Some(Last(st.unused[t]))
    && Took(st.unused, o.state.unused, t, Last(st.unused[t]))
    && Count(o.state.counters, "5") == Count(st.counters, "5") + 1
  }

  /** Counting and caching leave the pools, the lists and the bindings alone. */
  lemma CommitKeeps(p: Pick, queryHash: string)
    ensures var c := Commit(p, queryHash);
      && c.unused == p.state.unused && c.unmapped == p.state.unmapped && c.bindings == p.state.bindings
      && Count(c.counters, Label(p.path)) == Count(p.state.counters, Label(p.path)) + 1
  {
  }

  /** A new select query is the decision followed by counting and caching. */
  lemma SampleNew(lib: Library, st: State, q: UserQuery, oracle: Oracle)
    requires ReadsetOf(q.readTableIds).Ok? && q.queryHash !in st.cache && q.queryType == "select"
    ensures var c := Choose(lib, st, q.numJoins, ReadsetOf(q.readTableIds).value, oracle);
      Sample(lib, st, q, oracle) == if c.Ok? then Ok(Outcome(Some(c.value.instance), Commit(c.value, q.queryHash))) else Err(c.error)
  {
  }

  lemma UnboundBinds(lib: Library, st: State, n: int, ids: seq<int>, oracle: Oracle) returns (t: string)
    requires ids !in st.bindings && n in st.unmapped
    requires exists j :: 0 <= j < |st.unmapped[n]| && Size(st.unused, st.unmapped[n][j]) > 0
    requires Unbound(lib, st, n, ids, oracle).Ok?
    ensures var p := Unbound(lib, st, n, ids, oracle).value;
      && IsBest(st.unmapped[n], st.unused, Best(Some(t), Size(st.unused, t)))
      && Holders(st.unmapped, t) == {n}
      && p.path == Bind
      && p.state.bindings == st.bindings[ids := t]
      && p.state.unmapped == Retire(st.unmapped, t)
      && t in st.unused && |st.unused[t]| > 0 && p.instance == Last(st.unused[t])
      && Took(st.unused, p.state.unused, t, Last(st.unused[t]))
      && p.state.counters == st.counters
  {
    var cands := st.unmapped[n];
    ScanIsGreedy(cands, st.unused);
    var best := Scan(cands, st.unused).value;
    var j :| 0 <= j < |cands| && Size(st.unused, cands[j]) > 0;
    assert best.value > 0;
    t := best.template.value;
    assert n in Holders(st.unmapped, t);
    assert |Holders(st.unmapped, t)| == 1;
    var bound := st.(unmapped := Retire(st.unmapped, t), bindings := st.bindings[ids := t]);
    assert Unbound(lib, st, n, ids, oracle) == Ok(Pick(Last(st.unused[t]), Bind, PopPool(bound, t)));
    SingletonSet(Holders(st.unmapped, t), n);
  }

  lemma SingletonSet(s: set<int>, x: int)
    requires x in s && |s| == 1
    ensures s == {x}
  {
    assert |s - {x}| == 0;
    assert s - {x} == {};
  }

  /** Steps 4 -> 6 and 4 -> 7: a readset never seen whose unbound templates all have empty pools falls back. */
  lemma UnboundReadsetFallsBack(lib: Library, st: State, q: UserQuery, oracle: Oracle, ids: seq<int>)
    requires ReadsetOf(q.readTableIds) == Ok(Tuple(ids))
    requires q.queryHash !in st.cache && q.queryType == "select" && ids !in st.bindings
    requires q.numJoins in st.unmapped && Exhausted(st.unmapped[q.numJoins], st.unused, |st.unmapped[q.numJoins]|)
    ensures var r := Sample(lib, st, q, oracle);
      var f := Step6(lib, st, q.numJoins, oracle);
      && (r.Ok? <==> f.Ok?)
      && (r.Ok? ==>
            && r.value.instance == Some(f.value.instance)
            && r.value.state.unused == f.value.state.unused
            && r.value.state.bindings == st.bindings && r.value.state.unmapped == st.unmapped
            && Count(r.value.state.counters, Label(UnboundFallback(f.value.final)))
                 == Count(st.counters, Label(UnboundFallback(f.value.final))) + 1)
  {
    var cands := st.unmapped[q.numJoins];
    assert Scan(cands, st.unused).Ok? && Scan(cands, st.unused).value.value == 0 by {
      ScanIsGreedy(cands, st.unused);
    }
    var u := Unbound(lib, st, q.numJoins, ids, oracle);
    assert Sample(lib, st, q, oracle) == if u.Ok? then Ok(Outcome(Some(u.value.instance), Commit(u.value, q.queryHash))) else Err(u.error) by {
      SampleNew(lib, st, q, oracle);
      assert Choose(lib, st, q.numJoins, Tuple(ids), oracle) == u;
    }
    var f := Step6(lib, st, q.numJoins, oracle);
    if f.Ok? {
      var p := Pick(f.value.instance, UnboundFallback(f.value.final), f.value.state);
      assert u == Ok(p);
      assert f.value.state.counters == st.counters && p.state.bindings == st.bindings && p.state.unmapped == st.unmapped by {
        Step6Frame(lib, st, q.numJoins, oracle);
      }
      var c := Commit(p, q.queryHash);
      assert c.unused == f.value.state.unused && c.bindings == st.bindings && c.unmapped == st.unmapped
        && Count(c.counters, Label(p.path)) == Count(st.counters, Label(p.path)) + 1 by {
        CommitKeeps(p, q.queryHash);
      }
    } else {
      assert u.Err?;
    }
  }

  /**
   * The fallback: step 6 takes the last instance of the first template of the
   * shuffled list with instances left; step 7, reached only when every such
   * pool is empty, returns a query of the join count and removes nothing.
   */
  lemma Fallback(lib: Library, st: State, n: int, oracle: Oracle)
    requires Step6(lib, st, n, oracle).Ok?
    ensures n in lib.templatesByJoins
    ensures var p := Step6(lib, st, n, oracle).value;
      var shuffled := oracle.shuffle(st.draws, lib.templatesByJoins[n]);
      && (p.final == Six ==>
            exists i :: 0 <= i < |shuffled| && Exhausted(shuffled, st.unused, i)
              && Took(st.unused, p.state.unused, shuffled[i], p.instance))
      && (p.final == Seven ==>
            && Exhausted(shuffled, st.unused, |shuffled|)
            && n in lib.queriesByJoins && p.instance in lib.queriesByJoins[n] && p.state.unused == st.unused)
  {
    var shuffled := oracle.shuffle(st.draws, lib.templatesByJoins[n]);
    FirstWithPoolIsFirst(shuffled, st.unused);
  }

  // ---------------------------------------------------------------- monotonicity

  /**
   * The cache and the readset bindings only gain entries; no pool or list of
   * unbound templates gains an element, and a pool loses at most its last one.
   */
  ghost predicate Grows(before: State, after: State) {
    && Extends(before.cache, after.cache)
    && Extends(before.bindings, after.bindings)
    && PoolsShrink(before.unused, after.unused)
    && ListsShrink(before.unmapped, after.unmapped)
    && after.draws >= before.draws
  }

  /** Every entry of `before` is still in `after`, unchanged. */
  ghost predicate Extends<K, V>(before: map<K, V>, after: map<K, V>) {
    forall k :: k in before ==> k in after && after[k] == before[k]
  }

  /** The same templates, each pool a prefix of its former self, shorter by at most one. */
  ghost predicate PoolsShrink(before: map<string, seq<string>>, after: map<string, seq<string>>) {
    && after.Keys == before.Keys
    && forall t :: t in before ==> after[t] <= before[t] && |before[t]| <= |after[t]| + 1
  }

  /** The same join counts, each list holding no element it did not hold before. */
  ghost predicate ListsShrink(before: map<int, seq<string>>, after: map<int, seq<string>>) {
    && after.Keys == before.Keys
    && forall k :: k in before ==> multiset(after[k]) <= multiset(before[k])
  }

  /** Every query, cached or not, only lets the state grow in this sense. */
  lemma Monotone(lib: Library, st: State, q: UserQuery, oracle: Oracle)
    requires Sample(lib, st, q, oracle).Ok?
    ensures Grows(st, Sample(lib, st, q, oracle).value.state)
  {
    var readset := ReadsetOf(q.readTableIds).value;
    if q.queryHash !in st.cache && q.queryType == "select" {
      var p := Choose(lib, st, q.numJoins, readset, oracle).value;
      ChooseFrame(lib, st, q.numJoins, readset, oracle);
      CommitGrows(st, readset.ids, p, q.queryHash);
    }
  }

  lemma CommitGrows(st: State, ids: seq<int>, p: Pick, queryHash: string)
    requires DecisionFrame(st, ids, p) && queryHash !in st.cache
    ensures Grows(st, Commit(p, queryHash))
  {
    var after := Commit(p, queryHash);
    assert after.unused == p.state.unused && after.unmapped == p.state.unmapped && after.bindings == p.state.bindings;
    assert Extends(st.cache, after.cache) by {
      assert after.cache == st.cache[queryHash := p.instance];
    }
    PoolsOfDecision(st.unused, p.state.unused, p.path, p.instance);
    BindingsOfDecision(st, ids, p);
  }

  /** A decision takes at most the last instance of one pool. */
  lemma PoolsOfDecision(before: map<string, seq<string>>, after: map<string, seq<string>>, path: Path, instance: string)
    requires Pops(path) ==> exists t :: Took(before, after, t, instance)
    requires !Pops(path) ==> after == before
    ensures PoolsShrink(before, after)
  {
    if Pops(path) {
      var t :| Took(before, after, t, instance);
      TookShrinks(before, after, t, instance);
    }
  }

  /** A decision binds at most the readset it was made for, and retires at most one template. */
  lemma BindingsOfDecision(st: State, ids: seq<int>, p: Pick)
    requires p.path == Bind ==>
      && ids !in st.bindings
      && exists t :: p.state.bindings == st.bindings[ids := t] && p.state.unmapped == Retire(st.unmapped, t)
    requires p.path != Bind ==> p.state.bindings == st.bindings && p.state.unmapped == st.unmapped
    ensures Extends(st.bindings, p.state.bindings) && ListsShrink(st.unmapped, p.state.unmapped)
  {
    if p.path == Bind {
      var t :| p.state.bindings == st.bindings[ids := t] && p.state.unmapped == Retire(st.unmapped, t);
    }
  }

  lemma TookShrinks(before: map<string, seq<string>>, after: map<string, seq<string>>, t: string, instance: string)
    requires Took(before, after, t, instance)
    ensures PoolsShrink(before, after)
  {
  }

  // ---------------------------------------------------------------- the state invariant

  /**
   * The allocator's state against the library it was copied from: the same
   * templates, each pool a prefix of the template's queries; the same join
   * counts, each list of unbound templates duplicate-free and within the
   * templates of its join count; and every bound template has a pool and is
   * retired from every list.
   */
  ghost predicate Inv(lib: Library, st: State) {
    && PoolsWithin(lib, st.unused)
    && ListsWithin(lib, st.unmapped)
    && BoundRetired(st.unused, st.unmapped, st.bindings)
  }

  ghost predicate PoolsWithin(lib: Library, unused: map<string, seq<string>>) {
    && unused.Keys == lib.queriesByTemplate.Keys
    && forall t :: t in unused ==> unused[t] <= lib.queriesByTemplate[t]
  }

  ghost predicate ListsWithin(lib: Library, unmapped: map<int, seq<string>>) {
    && unmapped.Keys == lib.templatesByJoins.Keys
    && (forall k :: k in unmapped ==> NoDup(unmapped[k]))
    && (forall k, t :: k in unmapped && t in unmapped[k] ==> t in lib.templatesByJoins[k])
  }

  ghost predicate BoundRetired(unused: map<string, seq<string>>, unmapped: map<int, seq<string>>, bindings: map<seq<int>, string>) {
    forall ids :: ids in bindings ==> bindings[ids] in unused && Holders(unmapped, bindings[ids]) == {}
  }

  /** Every user starts from a state that satisfies the invariant. */
  lemma InitialInv(lib: Library, counters: map<string, nat>, draws: nat)
    requires ValidLibrary(lib)
    ensures Inv(lib, Initial(lib, counters, draws))
  {
  }

  /** Taking the last instance of a pool keeps the invariant. */
  lemma PopInv(lib: Library, st: State, t: string)
    requires Inv(lib, st) && t in st.unused && |st.unused[t]| > 0
    ensures Inv(lib, PopPool(st, t))
  {
    var s := st.unused[t];
    assert Pop(s) <= s;
  }

  /**
   * Under a valid library with templates of a single join count and a
   * shuffle that permutes, the fallback never fails for a join count of the
   * library and keeps the invariant.
   */
  lemma Step6Safe(lib: Library, st: State, n: int, oracle: Oracle)
    requires ValidLibrary(lib) && ValidOracle(oracle) && Inv(lib, st)
    requires n in lib.templatesByJoins
    ensures Step6(lib, st, n, oracle).Ok? && Inv(lib, Step6(lib, st, n, oracle).value.state)
  {
    var shuffled := oracle.shuffle(st.draws, lib.templatesByJoins[n]);
    forall i | 0 <= i < |shuffled| ensures shuffled[i] in st.unused {
      assert shuffled[i] in multiset(shuffled);
      assert shuffled[i] in lib.templatesByJoins[n];
    }
    FirstWithPoolIsFirst(shuffled, st.unused);
    var found := FirstWithPool(shuffled, st.unused).value;
    if found.Some? {
      PopInv(lib, st.(draws := st.draws + 1), found.value);
    }
  }

  lemma BoundSafe(lib: Library, st: State, n: int, ids: seq<int>, oracle: Oracle)
    requires ValidLibrary(lib) && ValidOracle(oracle) && Inv(lib, st)
    requires n in lib.templatesByJoins && ids in st.bindings
    ensures Bound(lib, st, n, st.bindings[ids], oracle).Ok?
    ensures Inv(lib, Bound(lib, st, n, st.bindings[ids], oracle).value.state)
  {
    var t := st.bindings[ids];
    if |st.unused[t]| > 0 {
      PopInv(lib, st, t);
    } else {
      Step6Safe(lib, st, n, oracle);
    }
  }

  lemma UnboundSafe(lib: Library, st: State, n: int, ids: seq<int>, oracle: Oracle)
    requires ValidLibrary(lib) && TemplatesUnique(lib) && ValidOracle(oracle) && Inv(lib, st)
    requires n in lib.templatesByJoins && ids !in st.bindings
    ensures Unbound(lib, st, n, ids, oracle).Ok?
    ensures Inv(lib, Unbound(lib, st, n, ids, oracle).value.state)
  {
    var cands := st.unmapped[n];
    ScanIsGreedy(cands, st.unused);
    var best := Scan(cands, st.unused).value;
    if best.value > 0 {
      var t := best.template.value;
      assert n in Holders(st.unmapped, t);
      forall k | k in Holders(st.unmapped, t) ensures k == n {
        assert t in lib.templatesByJoins[k] && t in lib.templatesByJoins[n];
      }
      assert Holders(st.unmapped, t) == {n};
      assert |Holders(st.unmapped, t)| == 1;
      RetireInv(lib, st, t, ids);
      var bound := st.(unmapped := Retire(st.unmapped, t), bindings := st.bindings[ids := t]);
      PopInv(lib, bound, t);
      assert Unbound(lib, st, n, ids, oracle) == Ok(Pick(Last(st.unused[t]), Bind, PopPool(bound, t)));
    } else {
      Step6Safe(lib, st, n, oracle);
      var f := Step6(lib, st, n, oracle).value;
      assert Unbound(lib, st, n, ids, oracle) == Ok(Pick(f.instance, UnboundFallback(f.final), f.state));
    }
  }

  /** Retiring a template with a pool and binding a readset to it keeps the invariant. */
  lemma RetireInv(lib: Library, st: State, t: string, ids: seq<int>)
    requires Inv(lib, st) && t in st.unused
    ensures Inv(lib, st.(unmapped := Retire(st.unmapped, t), bindings := st.bindings[ids := t]))
  {
    RetireLists(lib, st.unmapped, t);
    var retired := Retire(st.unmapped, t);
    forall b | b in st.bindings ensures Holders(retired, st.bindings[b]) == {} {
      HoldersShrink(st.unmapped, t, st.bindings[b]);
    }
  }

  lemma RetireLists(lib: Library, unmapped: map<int, seq<string>>, t: string)
    requires ListsWithin(lib, unmapped)
    ensures ListsWithin(lib, Retire(unmapped, t)) && Holders(Retire(unmapped, t), t) == {}
  {
    RetireEverywhere(unmapped, t);
  }

  /** Retiring a template adds no template to any list. */
  lemma HoldersShrink(unmapped: map<int, seq<string>>, t: string, u: string)
    ensures Holders(Retire(unmapped, t), u) <= Holders(unmapped, u)
  {
    forall k | k in Holders(Retire(unmapped, t), u) ensures k in Holders(unmapped, u) {
      assert multiset(Retire(unmapped, t)[k])[u] > 0;
    }
  }

  /** Counting and caching keep the invariant. */
  lemma CommitInv(lib: Library, p: Pick, queryHash: string)
    requires Inv(lib, p.state)
    ensures Inv(lib, Commit(p, queryHash))
  {
    CommitKeeps(p, queryHash);
  }

  /**
   * Under a valid library whose templates each have a single join count and a
   * shuffle that permutes, a query with a readset and a join count of the
   * library is always placed, a select query or a cached one gets an
   * instance, and the invariant is kept: none of the lookups, neither the
   * assertion of src/redbench.py:290-292 nor `random.choice` can fail.
   */
  lemma NoFailure(lib: Library, st: State, q: UserQuery, oracle: Oracle)
    requires ValidLibrary(lib) && TemplatesUnique(lib) && ValidOracle(oracle) && Inv(lib, st)
    requires q.numJoins in lib.templatesByJoins
    requires q.readTableIds.Some? && ReadsetOf(q.readTableIds).Ok?
    ensures Sample(lib, st, q, oracle).Ok?
    ensures Inv(lib, Sample(lib, st, q, oracle).value.state)
    ensures q.queryHash in st.cache || q.queryType == "select" ==> Sample(lib, st, q, oracle).value.instance.Some?
  {
    assert ReadsetOf(q.readTableIds).value.Tuple? by {
      ReadsetShape(q.readTableIds);
    }
    var ids := ReadsetOf(q.readTableIds).value.ids;
    if q.queryHash !in st.cache && q.queryType == "select" {
      var c := Choose(lib, st, q.numJoins, Tuple(ids), oracle);
      assert c.Ok? && Inv(lib, c.value.state) by {
        if ids in st.bindings {
          BoundSafe(lib, st, q.numJoins, ids, oracle);
        } else {
          UnboundSafe(lib, st, q.numJoins, ids, oracle);
        }
      }
      assert Sample(lib, st, q, oracle) == Ok(Outcome(Some(c.value.instance), Commit(c.value, q.queryHash))) by {
        SampleNew(lib, st, q, oracle);
      }
      CommitInv(lib, c.value, q.queryHash);
    }
  }
}
