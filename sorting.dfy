/**
 * Python's `sorted` under a total order, and the two orders the modelled code
 * sorts by: integers and strings (code-point lexicographic). Because a total
 * order is antisymmetric, the sorted result is determined by the multiset of
 * the input alone, which is what makes the library indexes deterministic.
 */
module Sorting {

  ghost predicate TotalOrder<T(!new)>(le: (T, T) -> bool) {
    && (forall a :: le(a, a))
    && (forall a, b :: le(a, b) && le(b, a) ==> a == b)
    && (forall a, b, c :: le(a, b) && le(b, c) ==> le(a, c))
    && (forall a, b :: le(a, b) || le(b, a))
  }

  predicate SortedBy<T>(s: seq<T>, le: (T, T) -> bool) {
    forall i, j :: 0 <= i < j < |s| ==> le(s[i], s[j])
  }

  /** No element occurs twice. */
  predicate NoDup<T(==)>(s: seq<T>) {
    forall i, j :: 0 <= i < j < |s| ==> s[i] != s[j]
  }

  function Insert<T>(x: T, s: seq<T>, le: (T, T) -> bool): (r: seq<T>)
    ensures multiset(r) == multiset(s) + multiset{x}
  {
    if s == [] then [x]
    else if le(x, s[0]) then [x] + s
    else (assert s == [s[0]] + s[1..]; [s[0]] + Insert(x, s[1..], le))
  }

  /** `sorted(s)`. */
  function Sort<T>(s: seq<T>, le: (T, T) -> bool): (r: seq<T>)
    ensures multiset(r) == multiset(s)
  {
    if s == [] then [] else (assert s == [s[0]] + s[1..]; Insert(s[0], Sort(s[1..], le), le))
  }

  lemma {:induction false} InsertSorted<T(!new)>(x: T, s: seq<T>, le: (T, T) -> bool)
    requires TotalOrder(le) && SortedBy(s, le)
    ensures SortedBy(Insert(x, s, le), le)
  {
    if s != [] && !le(x, s[0]) {
      InsertSorted(x, s[1..], le);
      var r := Insert(x, s[1..], le);
      forall k | 0 <= k < |r| ensures le(s[0], r[k]) {
        assert r[k] in multiset(r);
        assert r[k] in multiset(s[1..]) + multiset{x};
        if r[k] != x {
          assert r[k] in s[1..];
        }
      }
    }
  }

  lemma {:induction false} SortSorted<T(!new)>(s: seq<T>, le: (T, T) -> bool)
    requires TotalOrder(le)
    ensures SortedBy(Sort(s, le), le)
  {
    if s != [] {
      SortSorted(s[1..], le);
      InsertSorted(s[0], Sort(s[1..], le), le);
    }
  }

  /** Two sorted sequences with the same elements are equal. */
  lemma {:induction false} SortedUnique<T(!new)>(a: seq<T>, b: seq<T>, le: (T, T) -> bool)
    requires TotalOrder(le) && SortedBy(a, le) && SortedBy(b, le)
    requires multiset(a) == multiset(b)
    ensures a == b
  {
    if a != [] {
      SameHead(a, b, le);
      SameTail(a, b);
      assert SortedBy(a[1..], le) && SortedBy(b[1..], le);
      SortedUnique(a[1..], b[1..], le);
      assert a == [a[0]] + a[1..] && b == [b[0]] + b[1..];
    } else {
      assert |multiset(b)| == 0;
    }
  }

  /** Sorted sequences with the same elements start with the same, least, element. */
  lemma SameHead<T(!new)>(a: seq<T>, b: seq<T>, le: (T, T) -> bool)
    requires TotalOrder(le) && SortedBy(a, le) && SortedBy(b, le)
    requires multiset(a) == multiset(b) && a != []
    ensures b != [] && a[0] == b[0]
  {
    assert a[0] in multiset(b);
    assert b[0] in multiset(a);
    var i :| 0 <= i < |a| && a[i] == b[0];
    var j :| 0 <= j < |b| && b[j] == a[0];
    assert le(a[0], b[0]) by { if i > 0 { assert le(a[0], a[i]); } }
    assert le(b[0], a[0]) by { if j > 0 { assert le(b[0], b[j]); } }
  }

  /** Removing the same first element leaves the same elements. */
  lemma SameTail<T>(a: seq<T>, b: seq<T>)
    requires a != [] && b != [] && a[0] == b[0] && multiset(a) == multiset(b)
    ensures multiset(a[1..]) == multiset(b[1..])
  {
    assert a == [a[0]] + a[1..] && b == [b[0]] + b[1..];
    assert multiset(a) == multiset{a[0]} + multiset(a[1..]);
    assert multiset(b) == multiset{b[0]} + multiset(b[1..]);
    assert multiset(a[1..]) == multiset(a) - multiset{a[0]};
    assert multiset(b[1..]) == multiset(b) - multiset{b[0]};
  }

  /** The sorted result depends only on the multiset of the input, not its order. */
  lemma SortCanonical<T(!new)>(a: seq<T>, b: seq<T>, le: (T, T) -> bool)
    requires TotalOrder(le) && multiset(a) == multiset(b)
    ensures Sort(a, le) == Sort(b, le)
  {
    SortSorted(a, le);
    SortSorted(b, le);
    SortedUnique(Sort(a, le), Sort(b, le), le);
  }

  /** Having no duplicate is a property of the multiset. */
  lemma NoDupByMultiset<T>(a: seq<T>, b: seq<T>)
    requires NoDup(a) && multiset(a) == multiset(b)
    ensures NoDup(b)
  {
    forall x | x in multiset(a) ensures multiset(a)[x] == 1 {
      var i :| 0 <= i < |a| && a[i] == x;
      NoDupCount(a, i);
    }
    forall i, j | 0 <= i < j < |b| ensures b[i] != b[j] {
      var x := b[i];
      assert b == b[..i] + [x] + b[i + 1..j] + [b[j]] + b[j + 1..];
      assert multiset(b)[x] == multiset(b[..i])[x] + 1 + multiset(b[i + 1..j])[x]
        + multiset([b[j]])[x] + multiset(b[j + 1..])[x];
      assert x in multiset(a);
    }
  }

  lemma NoDupAppend<T>(s: seq<T>, x: T)
    requires NoDup(s) && x !in s
    ensures NoDup(s + [x])
  {
  }

  lemma {:induction false} NoDupCount<T>(a: seq<T>, i: nat)
    requires NoDup(a) && i < |a|
    ensures multiset(a)[a[i]] == 1
  {
    var x := a[i];
    assert a == a[..i] + [x] + a[i + 1..];
    assert x !in a[..i] && x !in a[i + 1..];
    assert multiset(a[..i])[x] == 0 && multiset(a[i + 1..])[x] == 0;
  }

  // ---------------------------------------------------------------- the two orders

  function IntLe(a: int, b: int): bool { a <= b }

  /** Python's `a <= b` on `str`: lexicographic by code point, a proper prefix first. */
  function StringLe(a: string, b: string): bool
  {
    if a == [] then true
    else if b == [] then false
    else if a[0] != b[0] then a[0] < b[0]
    else StringLe(a[1..], b[1..])
  }

  lemma IntLeTotal()
    ensures TotalOrder(IntLe)
  {
  }

  lemma {:induction false} StringLeAntisym(a: string, b: string)
    requires StringLe(a, b) && StringLe(b, a)
    ensures a == b
  {
    if a != [] && b != [] {
      StringLeAntisym(a[1..], b[1..]);
      assert a == [a[0]] + a[1..] && b == [b[0]] + b[1..];
    }
  }

  lemma {:induction false} StringLeTrans(a: string, b: string, c: string)
    requires StringLe(a, b) && StringLe(b, c)
    ensures StringLe(a, c)
  {
    if a != [] && b != [] && c != [] && a[0] == b[0] && b[0] == c[0] {
      StringLeTrans(a[1..], b[1..], c[1..]);
    }
  }

  lemma {:induction false} StringLeConnex(a: string, b: string)
    ensures StringLe(a, b) || StringLe(b, a)
  {
    if a != [] && b != [] && a[0] == b[0] {
      StringLeConnex(a[1..], b[1..]);
    }
  }

  lemma {:induction false} StringLeRefl(a: string)
    ensures StringLe(a, a)
  {
    if a != [] {
      StringLeRefl(a[1..]);
    }
  }

  lemma StringLeTotal()
    ensures TotalOrder(StringLe)
  {
    forall a ensures StringLe(a, a) { StringLeRefl(a); }
    forall a, b | StringLe(a, b) && StringLe(b, a) ensures a == b { StringLeAntisym(a, b); }
    forall a, b, c | StringLe(a, b) && StringLe(b, c) ensures StringLe(a, c) { StringLeTrans(a, b, c); }
    forall a, b ensures StringLe(a, b) || StringLe(b, a) { StringLeConnex(a, b); }
  }

  /** Sorting a duplicate-free sequence gives the unique sorted, duplicate-free listing of its elements. */
  lemma SortFacts<T(!new)>(s: seq<T>, le: (T, T) -> bool)
    requires TotalOrder(le)
    ensures SortedBy(Sort(s, le), le)
    ensures forall x :: x in Sort(s, le) <==> x in s
    ensures NoDup(s) ==> NoDup(Sort(s, le))
  {
    SortSorted(s, le);
    var r := Sort(s, le);
    forall x ensures x in r <==> x in s {
      assert x in r <==> x in multiset(r);
      assert x in s <==> x in multiset(s);
    }
    if NoDup(s) {
      NoDupByMultiset(s, r);
    }
  }
}
