/** Python's library sorts as the core uses them: `list.sort(key=...,
    reverse=True)` and `sorted(..., key=..., reverse=True)` on an integer
    key, which are stable (equal keys keep their order), and `sorted()` of a
    set of strings, which orders by code point. */
module Sorting {

  /** Keys never increase along `s`. */
  ghost predicate SortedDesc<T>(s: seq<T>, key: T -> int) {
    forall i, j :: 0 <= i < j < |s| ==> key(s[i]) >= key(s[j])
  }

  /** The elements of `s` whose key is `k`, in order. */
  function WithKey<T>(s: seq<T>, key: T -> int, k: int): seq<T> {
    if s == [] then []
    else WithKey(s[..|s| - 1], key, k) + (if key(s[|s| - 1]) == k then [s[|s| - 1]] else [])
  }

  /** Places `x` after every element whose key is at least its own. */
  function InsertDesc<T>(s: seq<T>, x: T, key: T -> int): (r: seq<T>)
    ensures |r| == |s| + 1
    ensures multiset(r) == multiset(s) + multiset{x}
  {
    if s == [] || key(s[|s| - 1]) >= key(x) then s + [x]
    else
      assert s == s[..|s| - 1] + [s[|s| - 1]];
      InsertDesc(s[..|s| - 1], x, key) + [s[|s| - 1]]
  }

  /** The stable descending sort by `key`. */
  function SortDesc<T>(s: seq<T>, key: T -> int): (r: seq<T>)
    ensures |r| == |s|
    ensures multiset(r) == multiset(s)
  {
    if s == [] then []
    else
      assert s == s[..|s| - 1] + [s[|s| - 1]];
      InsertDesc(SortDesc(s[..|s| - 1], key), s[|s| - 1], key)
  }

  lemma {:induction false} InsertDescSorted<T>(s: seq<T>, x: T, key: T -> int)
    requires SortedDesc(s, key)
    ensures SortedDesc(InsertDesc(s, x, key), key)
  {
    if s != [] && key(s[|s| - 1]) < key(x) {
      var init, last := s[..|s| - 1], s[|s| - 1];
      InsertDescSorted(init, x, key);
      var r0 := InsertDesc(init, x, key);
      var r := r0 + [last];
      forall i, j | 0 <= i < j < |r| ensures key(r[i]) >= key(r[j]) {
        if j == |r0| {
          assert r[i] in multiset(init) + multiset{x} by { assert r[i] == r0[i]; assert r0[i] in multiset(r0); }
          if r[i] != x {
            var k :| 0 <= k < |init| && init[k] == r[i];
            assert s[k] == init[k];
          }
        } else {
          assert r[i] == r0[i] && r[j] == r0[j];
        }
      }
    }
  }

  /** Sorting keeps exactly the elements it is given. */
  lemma SortDescMembers<T>(s: seq<T>, key: T -> int, x: T)
    ensures x in SortDesc(s, key) <==> x in s
  {
    var r := SortDesc(s, key);
    assert x in r <==> x in multiset(r);
    assert x in s <==> x in multiset(s);
  }

  /** The result is ordered by descending key. */
  lemma {:induction false} SortDescSorted<T>(s: seq<T>, key: T -> int)
    ensures SortedDesc(SortDesc(s, key), key)
  {
    if s != [] {
      SortDescSorted(s[..|s| - 1], key);
      InsertDescSorted(SortDesc(s[..|s| - 1], key), s[|s| - 1], key);
    }
  }

  lemma {:induction false} WithKeySnoc<T>(s: seq<T>, x: T, key: T -> int, k: int)
    ensures WithKey(s + [x], key, k) == WithKey(s, key, k) + (if key(x) == k then [x] else [])
  {
    assert (s + [x])[..|s|] == s;
  }

  lemma {:induction false} InsertDescStable<T>(s: seq<T>, x: T, key: T -> int, k: int)
    ensures WithKey(InsertDesc(s, x, key), key, k) == WithKey(s, key, k) + (if key(x) == k then [x] else [])
  {
    if s == [] || key(s[|s| - 1]) >= key(x) {
      WithKeySnoc(s, x, key, k);
    } else {
      var init, last := s[..|s| - 1], s[|s| - 1];
      InsertDescStable(init, x, key, k);
      WithKeySnoc(InsertDesc(init, x, key), last, key, k);
      WithKeySnoc(init, last, key, k);
      assert s == init + [last];
    }
  }

  /** Stability: for every key, the elements carrying it keep their input
      order. Together with `SortDescSorted` this fixes the result. */
  lemma {:induction false} SortDescStable<T>(s: seq<T>, key: T -> int, k: int)
    ensures WithKey(SortDesc(s, key), key, k) == WithKey(s, key, k)
  {
    if s != [] {
      var init, last := s[..|s| - 1], s[|s| - 1];
      SortDescStable(init, key, k);
      InsertDescStable(SortDesc(init, key), last, key, k);
      WithKeySnoc(init, last, key, k);
      assert s == init + [last];
    }
  }

  /** Python's `<` on strings: lexicographic by code point. */
  predicate StrLess(a: string, b: string) {
    if a == [] then b != []
    else if b == [] then false
    else if a[0] != b[0] then a[0] < b[0]
    else StrLess(a[1..], b[1..])
  }

  lemma {:induction false} StrLessIrreflexive(a: string)
    ensures !StrLess(a, a)
  {
    if a != [] { StrLessIrreflexive(a[1..]); }
  }

  lemma {:induction false} StrLessTransitive(a: string, b: string, c: string)
    requires StrLess(a, b) && StrLess(b, c)
    ensures StrLess(a, c)
  {
    if a != [] && b != [] && c != [] && a[0] == b[0] && b[0] == c[0] {
      StrLessTransitive(a[1..], b[1..], c[1..]);
    }
  }

  lemma {:induction false} StrLessTotal(a: string, b: string)
    requires a != b
    ensures StrLess(a, b) || StrLess(b, a)
  {
    if a != [] && b != [] && a[0] == b[0] {
      assert a == [a[0]] + a[1..] && b == [b[0]] + b[1..];
      StrLessTotal(a[1..], b[1..]);
    }
  }

  ghost predicate StrictlyAscending(s: seq<string>) {
    forall i, j :: 0 <= i < j < |s| ==> StrLess(s[i], s[j])
  }

  /** Inserts `x` into an ascending list of strings. */
  function InsertAscending(s: seq<string>, x: string): (r: seq<string>)
    requires StrictlyAscending(s) && x !in s
    ensures StrictlyAscending(r)
    ensures forall y :: y in r <==> y in s || y == x
  {
    if s == [] then [x]
    else if StrLess(x, s[0]) then
      assert forall j :: 0 <= j < |s| ==> StrLess(x, s[j]) by {
        forall j | 0 < j < |s| ensures StrLess(x, s[j]) { StrLessTransitive(x, s[0], s[j]); }
      }
      [x] + s
    else
      StrLessTotal(x, s[0]);
      var t := InsertAscending(s[1..], x);
      assert forall y :: y in t ==> StrLess(s[0], y);
      [s[0]] + t
  }

  /** `sorted(strings)` for a set of strings: every element once, ascending. */
  method SortedStrings(strings: set<string>) returns (r: seq<string>)
    ensures StrictlyAscending(r)
    ensures forall y :: y in r <==> y in strings
    ensures |r| == |strings|
  {
    r := [];
    var rest := strings;
    while rest != {}
      invariant StrictlyAscending(r)
      invariant forall y :: y in r <==> y in strings && y !in rest
      invariant rest <= strings
      invariant (set y | y in r) == strings - rest
      decreases rest
    {
      var x :| x in rest;
      r := InsertAscending(r, x);
      rest := rest - {x};
    }
    AscendingLength(r);
  }

  /** An ascending list has no repeats, so its length is its number of
      distinct elements. */
  lemma AscendingLength(s: seq<string>)
    requires StrictlyAscending(s)
    ensures |set y | y in s| == |s|
  {
    if s != [] {
      AscendingLength(s[1..]);
      StrLessIrreflexive(s[0]);
      assert s[0] !in s[1..];
      assert (set y | y in s) == {s[0]} + (set y | y in s[1..]);
    }
  }
}
