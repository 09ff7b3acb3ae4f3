/** Generic list facts: the "seen set" walk that keeps the first element of
    every key (dict insertion order, `dedupe_messages`), list comprehensions
    with a filter, and what it means to be a subsequence at given positions. */
module Seqs {

  function Identity<T>(x: T): T { x }

  /** One more element of a prefix. */
  lemma TakeSnoc<T>(s: seq<T>, i: int)
    requires 0 <= i < |s|
    ensures s[..i + 1] == s[..i] + [s[i]]
    ensures s[..i + 1][..i] == s[..i]
  {
  }

  lemma TakeAll<T>(s: seq<T>)
    ensures s[..|s|] == s
  {
  }

  /** A non-empty sequence is its prefix followed by its last element. */
  lemma InitLast<T>(s: seq<T>)
    requires s != []
    ensures s[..|s| - 1] + [s[|s| - 1]] == s
  {
  }

  /** The keys of the elements of `s`. */
  function KeySet<T, K(==)>(s: seq<T>, key: T -> K): set<K> {
    set i | 0 <= i < |s| :: key(s[i])
  }

  /** `i` is the first position of `s` holding its key. */
  ghost predicate IsFirst<T, K>(s: seq<T>, key: T -> K, i: int) {
    0 <= i < |s| && forall j :: 0 <= j < i ==> key(s[j]) != key(s[i])
  }

  /** `idx` lists, in increasing order, positions of `s` whose elements
      form `r`. */
  ghost predicate IsEmbedding<T>(idx: seq<int>, r: seq<T>, s: seq<T>) {
    && |idx| == |r|
    && (forall j :: 0 <= j < |idx| ==> 0 <= idx[j] < |s| && r[j] == s[idx[j]])
    && (forall j, j' :: 0 <= j < j' < |idx| ==> idx[j] < idx[j'])
  }

  /** `r` is the subsequence of `s` made of exactly the positions `keep`
      selects, in their original order. */
  ghost predicate KeepsExactly<T>(r: seq<T>, s: seq<T>, keep: int -> bool) {
    exists idx :: IsEmbedding(idx, r, s) && forall i :: 0 <= i < |s| ==> (i in idx <==> keep(i))
  }

  ghost predicate KeysDistinct<T, K>(s: seq<T>, key: T -> K) {
    forall i, j :: 0 <= i < j < |s| ==> key(s[i]) != key(s[j])
  }

  /** One pass with a "seen" set of keys: an element is kept unless an
      earlier element had the same key. */
  function DistinctBy<T, K(==)>(s: seq<T>, key: T -> K): (r: seq<T>)
    ensures |r| <= |s|
    ensures forall x :: x in r ==> x in s
  {
    if s == [] then []
    else
      var init := DistinctBy(s[..|s| - 1], key);
      if key(s[|s| - 1]) in KeySet(s[..|s| - 1], key) then init else init + [s[|s| - 1]]
  }

  lemma {:induction false} KeySetSnoc<T, K>(s: seq<T>, x: T, key: T -> K)
    ensures KeySet(s + [x], key) == KeySet(s, key) + {key(x)}
  {
    var t := s + [x];
    forall k | k in KeySet(t, key) ensures k in KeySet(s, key) + {key(x)} {
      var i :| 0 <= i < |t| && key(t[i]) == k;
      if i < |s| { assert t[i] == s[i]; }
    }
    forall k | k in KeySet(s, key) + {key(x)} ensures k in KeySet(t, key) {
      if k == key(x) { assert key(t[|s|]) == k; }
      else { var i :| 0 <= i < |s| && key(s[i]) == k; assert t[i] == s[i]; }
    }
  }

  /** One step of the walk over a prefix of `s`. */
  lemma DistinctByStep<T, K>(s: seq<T>, i: int, seen: set<K>, result: seq<T>, key: T -> K)
    requires 0 <= i < |s|
    requires result == DistinctBy(s[..i], key) && seen == KeySet(s[..i], key)
    ensures KeySet(s[..i + 1], key) == seen + {key(s[i])}
    ensures DistinctBy(s[..i + 1], key) == if key(s[i]) in seen then result else result + [s[i]]
  {
    var t := s[..i + 1];
    assert t[..i] == s[..i];
    assert t == s[..i] + [s[i]];
    KeySetSnoc(s[..i], s[i], key);
  }

  /** Of two elements with the same key only the first is kept. */
  lemma DistinctByPair<T, K>(a: T, b: T, key: T -> K)
    requires key(a) == key(b)
    ensures DistinctBy([a, b], key) == [a]
  {
    assert [a, b][..1] == [a] && [a][..0] == [];
    assert key([a][0]) in KeySet([a], key);
  }

  /** Every key of the input survives, and no other key appears. */
  lemma {:induction false} DistinctByKeySet<T, K>(s: seq<T>, key: T -> K)
    ensures KeySet(DistinctBy(s, key), key) == KeySet(s, key)
  {
    if s != [] {
      var init, x := s[..|s| - 1], s[|s| - 1];
      assert s == init + [x];
      DistinctByKeySet(init, key);
      KeySetSnoc(init, x, key);
      if key(x) !in KeySet(init, key) {
        KeySetSnoc(DistinctBy(init, key), x, key);
      }
    }
  }

  /** No two kept elements share a key. */
  lemma {:induction false} DistinctByKeysDistinct<T, K>(s: seq<T>, key: T -> K)
    ensures KeysDistinct(DistinctBy(s, key), key)
  {
    if s != [] {
      var init, x := s[..|s| - 1], s[|s| - 1];
      DistinctByKeysDistinct(init, key);
      DistinctByKeySet(init, key);
      var r0 := DistinctBy(init, key);
      if key(x) !in KeySet(init, key) {
        var r := r0 + [x];
        forall i, j | 0 <= i < j < |r| ensures key(r[i]) != key(r[j]) {
          if j == |r0| {
            assert r[i] == r0[i];
            assert key(r0[i]) in KeySet(r0, key);
          } else {
            assert r[i] == r0[i] && r[j] == r0[j];
          }
        }
      }
    }
  }

  /** The walk keeps exactly the first occurrence of every key, in input
      order. */
  lemma {:induction false} DistinctByKeepsFirsts<T, K>(s: seq<T>, key: T -> K)
    ensures KeepsExactly(DistinctBy(s, key), s, i => IsFirst(s, key, i))
  {
    if s == [] {
      assert IsEmbedding([], DistinctBy(s, key), s);
    } else {
      var init, x := s[..|s| - 1], s[|s| - 1];
      DistinctByKeepsFirsts(init, key);
      var r0 := DistinctBy(init, key);
      var idx0 :| IsEmbedding(idx0, r0, init) && forall i :: 0 <= i < |init| ==> (i in idx0 <==> IsFirst(init, key, i));
      forall i | 0 <= i < |init| ensures IsFirst(s, key, i) == IsFirst(init, key, i) {
        assert forall j :: 0 <= j <= i ==> s[j] == init[j];
      }
      if key(x) in KeySet(init, key) {
        var j :| 0 <= j < |init| && key(init[j]) == key(x);
        assert s[j] == init[j];
        assert !IsFirst(s, key, |init|);
        assert IsEmbedding(idx0, r0, s);
        assert forall i :: 0 <= i < |s| ==> (i in idx0 <==> IsFirst(s, key, i));
      } else {
        var idx := idx0 + [|init|];
        var r := r0 + [x];
        assert IsFirst(s, key, |init|) by {
          forall j | 0 <= j < |init| ensures key(s[j]) != key(x) {
            assert s[j] == init[j];
            assert key(init[j]) in KeySet(init, key);
          }
        }
        assert IsEmbedding(idx, r, s);
        assert forall i :: 0 <= i < |s| ==> (i in idx <==> IsFirst(s, key, i));
      }
    }
  }

  /** A list whose keys are already distinct is left as it is. */
  lemma {:induction false} DistinctByOfDistinct<T, K>(s: seq<T>, key: T -> K)
    requires KeysDistinct(s, key)
    ensures DistinctBy(s, key) == s
  {
    if s != [] {
      var init, x := s[..|s| - 1], s[|s| - 1];
      DistinctByOfDistinct(init, key);
      assert key(x) !in KeySet(init, key) by {
        forall j | 0 <= j < |init| ensures key(init[j]) != key(x) {
          assert init[j] == s[j];
        }
      }
      assert s == init + [x];
    }
  }

  /** Keeping the first of every value keeps every value. */
  lemma DistinctMembers<T>(s: seq<T>, x: T)
    ensures x in DistinctBy(s, Identity) <==> x in s
  {
    DistinctByKeySet(s, Identity);
    if x in s {
      var k :| 0 <= k < |s| && s[k] == x;
      assert Identity(s[k]) in KeySet(s, Identity);
      var r := DistinctBy(s, Identity);
      var j :| 0 <= j < |r| && Identity(r[j]) == x;
    }
  }

  /** Running the walk twice changes nothing. */
  lemma DistinctByIdempotent<T, K>(s: seq<T>, key: T -> K)
    ensures DistinctBy(DistinctBy(s, key), key) == DistinctBy(s, key)
  {
    DistinctByKeysDistinct(s, key);
    DistinctByOfDistinct(DistinctBy(s, key), key);
  }

  /** The elements of `s` that satisfy `p`, in order. */
  function Filter<T>(s: seq<T>, p: T -> bool): (r: seq<T>)
    ensures |r| <= |s|
    ensures forall i :: 0 <= i < |r| ==> p(r[i])
  {
    if s == [] then []
    else Filter(s[..|s| - 1], p) + (if p(s[|s| - 1]) then [s[|s| - 1]] else [])
  }

  /** The comprehension keeps exactly the elements satisfying `p`, in order. */
  lemma FilterKeepsExactly<T>(s: seq<T>, p: T -> bool)
    ensures KeepsExactly(Filter(s, p), s, i => 0 <= i < |s| && p(s[i]))
  {
    var idx := FilterPositions(s, p);
    assert forall i :: 0 <= i < |s| ==> (i in idx <==> (0 <= i < |s| && p(s[i])));
  }

  /** The positions the comprehension keeps: exactly those passing `p`. */
  lemma {:induction false} FilterPositions<T>(s: seq<T>, p: T -> bool) returns (idx: seq<int>)
    ensures IsEmbedding(idx, Filter(s, p), s)
    ensures forall i :: 0 <= i < |s| ==> (i in idx <==> p(s[i]))
  {
    if s == [] {
      idx := [];
    } else {
      var init, x := s[..|s| - 1], s[|s| - 1];
      var idx0 := FilterPositions(init, p);
      idx := if p(x) then idx0 + [|init|] else idx0;
      FilterStep(s, p, Filter(init, p), idx0, idx);
    }
  }

  lemma FilterStep<T>(s: seq<T>, p: T -> bool, r0: seq<T>, idx0: seq<int>, idx: seq<int>)
    requires s != []
    requires IsEmbedding(idx0, r0, s[..|s| - 1])
    requires forall i :: 0 <= i < |s| - 1 ==> (i in idx0 <==> p(s[i]))
    requires idx == if p(s[|s| - 1]) then idx0 + [|s| - 1] else idx0
    ensures IsEmbedding(idx, if p(s[|s| - 1]) then r0 + [s[|s| - 1]] else r0, s)
    ensures forall i :: 0 <= i < |s| ==> (i in idx <==> p(s[i]))
  {
    var init, x := s[..|s| - 1], s[|s| - 1];
    var r := if p(x) then r0 + [x] else r0;
    forall j | 0 <= j < |idx| ensures 0 <= idx[j] < |s| && r[j] == s[idx[j]] {
      if j < |idx0| { assert idx[j] == idx0[j] && r[j] == r0[j] && s[idx0[j]] == init[idx0[j]]; }
    }
    forall i | 0 <= i < |s| ensures i in idx <==> p(s[i]) {
      if i < |init| {
        assert s[i] == init[i];
        assert i in idx <==> i in idx0;
      } else {
        assert i !in idx0;
      }
    }
  }

  /** An element is in the comprehension iff it is in the list and passes. */
  lemma {:induction false} FilterMembership<T>(s: seq<T>, p: T -> bool, x: T)
    ensures x in Filter(s, p) <==> x in s && p(x)
  {
    if s != [] {
      var init := s[..|s| - 1];
      FilterMembership(init, p, x);
      assert s == init + [s[|s| - 1]];
    }
  }

  /** Nothing satisfies `p`, so nothing is kept. */
  lemma {:induction false} FilterNone<T>(s: seq<T>, p: T -> bool)
    requires forall i :: 0 <= i < |s| ==> !p(s[i])
    ensures Filter(s, p) == []
  {
    if s != [] {
      FilterNone(s[..|s| - 1], p);
    }
  }

  lemma {:induction false} FilterAppend<T>(a: seq<T>, b: seq<T>, p: T -> bool)
    ensures Filter(a + b, p) == Filter(a, p) + Filter(b, p)
  {
    if b != [] {
      assert (a + b)[..|a + b| - 1] == a + b[..|b| - 1];
      FilterAppend(a, b[..|b| - 1], p);
    } else {
      assert a + b == a;
    }
  }

  /** Number of elements of `s` with key `k`. */
  function CountKey<T, K(==)>(s: seq<T>, key: T -> K, k: K): nat {
    if s == [] then 0
    else CountKey(s[..|s| - 1], key, k) + (if key(s[|s| - 1]) == k then 1 else 0)
  }

  lemma {:induction false} CountKeyAppend<T, K>(a: seq<T>, b: seq<T>, key: T -> K, k: K)
    ensures CountKey(a + b, key, k) == CountKey(a, key, k) + CountKey(b, key, k)
  {
    if b != [] {
      assert (a + b)[..|a + b| - 1] == a + b[..|b| - 1];
      CountKeyAppend(a, b[..|b| - 1], key, k);
    } else {
      assert a + b == a;
    }
  }

  lemma {:induction false} CountKeyPositive<T, K>(s: seq<T>, key: T -> K, k: K)
    ensures CountKey(s, key, k) > 0 <==> k in KeySet(s, key)
  {
    if s != [] {
      var init := s[..|s| - 1];
      CountKeyPositive(init, key, k);
      KeySetSnoc(init, s[|s| - 1], key);
      assert s == init + [s[|s| - 1]];
    }
  }

  /** First position of the chunk holding position `k`: chunks are
      `batchSize` long and start at 0. */
  function ChunkStart(k: nat, batchSize: nat): (r: nat)
    requires batchSize > 0
    ensures r <= k < r + batchSize
  {
    if k < batchSize then 0 else ChunkStart(k - batchSize, batchSize) + batchSize
  }

  /** Number of the chunk holding position `k`, counting from 0. */
  function ChunkIndex(k: nat, batchSize: nat): nat
    requires batchSize > 0
  {
    if k < batchSize then 0 else ChunkIndex(k - batchSize, batchSize) + 1
  }

  /** Chunks start at the multiples of the batch size, as
      `range(0, total, batchSize)` does. */
  lemma {:induction false} ChunkStartIsMultiple(k: nat, batchSize: nat)
    requires batchSize > 0
    ensures ChunkStart(k, batchSize) == ChunkIndex(k, batchSize) * batchSize
  {
    if k >= batchSize {
      ChunkStartIsMultiple(k - batchSize, batchSize);
      var q := ChunkIndex(k - batchSize, batchSize);
      assert (q + 1) * batchSize == q * batchSize + batchSize;
    }
  }
}
