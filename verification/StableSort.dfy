/** Stable sorting by an integer key, as done by Rust's `sort_by_key`.

    `StableSort` is one way to compute it; `SortedBucketsDetermine` shows that no other
    result exists: an ordering that is sorted and keeps the input order inside every key
    is unique. The lemmas after it are how lazy merges are compared with the eager sort. */
module StableSort {
  import opened Collections

  ghost predicate Sorted<T>(s: seq<T>, key: T -> int) {
    forall i, j | 0 <= i < j < |s| :: key(s[i]) <= key(s[j])
  }

  /** The elements of `s` whose key is `k`, in the order of `s`. */
  function Bucket<T>(s: seq<T>, key: T -> int, k: int): seq<T> {
    if s == [] then []
    else (if key(s[0]) == k then [s[0]] else []) + Bucket(s[1..], key, k)
  }

  /** Inserts `x` after every element whose key is at most that of `x`. */
  function Insert<T>(s: seq<T>, key: T -> int, x: T): seq<T> {
    if s == [] then [x]
    else if key(s[0]) <= key(x) then [s[0]] + Insert(s[1..], key, x)
    else [x] + s
  }

  function Sort<T>(s: seq<T>, key: T -> int): seq<T> {
    if s == [] then [] else Insert(Sort(s[..|s| - 1], key), key, s[|s| - 1])
  }

  lemma {:induction false} BucketConcat<T>(a: seq<T>, b: seq<T>, key: T -> int, k: int)
    ensures Bucket(a + b, key, k) == Bucket(a, key, k) + Bucket(b, key, k)
  {
    if a == [] {
      assert a + b == b;
    } else {
      assert (a + b)[0] == a[0] && (a + b)[1..] == a[1..] + b;
      BucketConcat(a[1..], b, key, k);
      var head := if key(a[0]) == k then [a[0]] else [];
      assert head + (Bucket(a[1..], key, k) + Bucket(b, key, k)) == head + Bucket(a[1..], key, k) + Bucket(b, key, k);
    }
  }

  lemma {:induction false} BucketEmpty<T>(s: seq<T>, key: T -> int, k: int)
    requires forall x | x in s :: key(x) != k
    ensures Bucket(s, key, k) == []
  {
    if s != [] {
      assert s[0] in s;
      BucketEmpty(s[1..], key, k);
    }
  }

  lemma {:induction false} BucketMember<T>(s: seq<T>, key: T -> int, x: T)
    requires x in s
    ensures x in Bucket(s, key, key(x))
  {
    if s[0] != x {
      BucketMember(s[1..], key, x);
    }
  }

  lemma {:induction false} BucketSubset<T>(s: seq<T>, key: T -> int, k: int)
    ensures forall x | x in Bucket(s, key, k) :: x in s && key(x) == k
  {
    if s != [] {
      BucketSubset(s[1..], key, k);
    }
  }

  lemma {:induction false} BucketUncons<T>(s: seq<T>, key: T -> int, k: int)
    requires s != []
    ensures Bucket(s[1..], key, k) == if key(s[0]) == k then Bucket(s, key, k)[1..] else Bucket(s, key, k)
  {
  }

  ghost predicate SameBuckets<T>(a: seq<T>, b: seq<T>, key: T -> int) {
    forall k :: Bucket(a, key, k) == Bucket(b, key, k)
  }

  lemma {:induction false} SameBucketsSameMembers<T>(a: seq<T>, b: seq<T>, key: T -> int)
    requires SameBuckets(a, b, key)
    ensures forall x | x in a :: x in b
    ensures forall x | x in b :: x in a
  {
    forall x ensures (x in a ==> x in b) && (x in b ==> x in a) {
      if x in a { BucketMember(a, key, x); BucketSubset(b, key, key(x)); }
      if x in b { BucketMember(b, key, x); BucketSubset(a, key, key(x)); }
    }
  }

  lemma {:induction false} SortedCons<T>(x: T, s: seq<T>, key: T -> int)
    requires Sorted(s, key)
    requires forall y | y in s :: key(x) <= key(y)
    ensures Sorted([x] + s, key)
  {
  }

  lemma {:induction false} InsertMembers<T>(s: seq<T>, key: T -> int, x: T)
    ensures forall y | y in Insert(s, key, x) :: y in s || y == x
  {
    if s != [] {
      InsertMembers(s[1..], key, x);
    }
  }

  lemma {:induction false} InsertSorted<T>(s: seq<T>, key: T -> int, x: T)
    requires Sorted(s, key)
    ensures Sorted(Insert(s, key, x), key)
  {
    if s != [] {
      InsertSorted(s[1..], key, x);
      if key(s[0]) <= key(x) {
        InsertMembers(s[1..], key, x);
        SortedCons(s[0], Insert(s[1..], key, x), key);
      } else {
        SortedCons(x, s, key);
      }
    }
  }

  lemma {:induction false} InsertBucket<T>(s: seq<T>, key: T -> int, x: T, k: int)
    requires Sorted(s, key)
    ensures Bucket(Insert(s, key, x), key, k) == Bucket(s + [x], key, k)
  {
    hide Bucket;
    if s == [] {
      assert s + [x] == [x];
    } else if key(s[0]) <= key(x) {
      InsertBucket(s[1..], key, x, k);
      BucketConcat([s[0]], Insert(s[1..], key, x), key, k);
      BucketConcat([s[0]], s[1..] + [x], key, k);
      Associate([s[0]], s[1..], [x]);
      assert [s[0]] + s[1..] == s;
    } else {
      BucketConcat([x], s, key, k);
      BucketConcat(s, [x], key, k);
      if k == key(x) { BucketEmpty(s, key, k); } else { BucketEmpty([x], key, k); }
    }
  }

  /** `Sort` sorts, and keeps the input order among elements with the same key. */
  lemma {:induction false} SortCorrect<T>(s: seq<T>, key: T -> int)
    ensures Sorted(Sort(s, key), key)
    ensures SameBuckets(Sort(s, key), s, key)
  {
    if s != [] {
      var a, x := s[..|s| - 1], s[|s| - 1];
      SortCorrect(a, key);
      InsertSorted(Sort(a, key), key, x);
      forall k ensures Bucket(Sort(s, key), key, k) == Bucket(s, key, k) {
        InsertBucket(Sort(a, key), key, x, k);
        BucketConcat(Sort(a, key), [x], key, k);
        BucketConcat(a, [x], key, k);
        assert a + [x] == s;
      }
    }
  }

  /** Being sorted with given buckets leaves no freedom. */
  lemma {:induction false} SortedBucketsDetermine<T>(a: seq<T>, b: seq<T>, key: T -> int)
    requires Sorted(a, key) && Sorted(b, key) && SameBuckets(a, b, key)
    ensures a == b
  {
    assert b != [] ==> b[0] in b;
    SameBucketsSameMembers(a, b, key);
    if a != [] {
      assert a[0] in b && b[0] in a;
      assert key(a[0]) == key(b[0]);
      assert a[0] == Bucket(a, key, key(a[0]))[0] == Bucket(b, key, key(a[0]))[0] == b[0];
      forall k ensures Bucket(a[1..], key, k) == Bucket(b[1..], key, k) {
        BucketUncons(a, key, k);
        BucketUncons(b, key, k);
      }
      SortedBucketsDetermine(a[1..], b[1..], key);
      assert a == [a[0]] + a[1..] && b == [b[0]] + b[1..];
    }
  }

  lemma {:induction false} SortUnique<T>(s: seq<T>, r: seq<T>, key: T -> int)
    requires Sorted(r, key) && SameBuckets(r, s, key)
    ensures Sort(s, key) == r
  {
    SortCorrect(s, key);
    SortedBucketsDetermine(Sort(s, key), r, key);
  }

  lemma {:induction false} SortMembers<T>(s: seq<T>, key: T -> int)
    ensures forall x :: x in s <==> x in Sort(s, key)
  {
    SortCorrect(s, key);
    SameBucketsSameMembers(Sort(s, key), s, key);
  }

  /** Only the order inside each key of the input matters. */
  lemma {:induction false} SortSameBuckets<T>(a: seq<T>, b: seq<T>, key: T -> int)
    requires SameBuckets(a, b, key)
    ensures Sort(a, key) == Sort(b, key)
  {
    SortCorrect(b, key);
    SortUnique(a, Sort(b, key), key);
  }

  lemma {:induction false} SameBucketsConcat<T>(a: seq<T>, a': seq<T>, b: seq<T>, b': seq<T>, key: T -> int)
    requires SameBuckets(a, a', key) && SameBuckets(b, b', key)
    ensures SameBuckets(a + b, a' + b', key)
  {
    forall k ensures Bucket(a + b, key, k) == Bucket(a' + b', key, k) {
      BucketConcat(a, b, key, k);
      BucketConcat(a', b', key, k);
    }
  }

  lemma {:induction false} BucketHead<T>(pre: seq<T>, x: T, post: seq<T>, key: T -> int, k: int)
    requires forall y | y in pre :: key(x) < key(y)
    ensures Bucket(pre + [x] + post, key, k) == Bucket([x], key, k) + Bucket(pre + post, key, k)
  {
    BucketConcat(pre, post, key, k);
    BucketConcat(pre + [x], post, key, k);
    BucketConcat(pre, [x], key, k);
    if k == key(x) { BucketEmpty(pre, key, k); } else { BucketEmpty([x], key, k); }
  }

  /** The step shared by every lazy merge: an element that is strictly before everything in
      front of it and no later than everything behind it is the head of the stable sort. */
  lemma {:induction false} SortHead<T>(pre: seq<T>, x: T, post: seq<T>, key: T -> int)
    requires forall y | y in pre :: key(x) < key(y)
    requires forall y | y in post :: key(x) <= key(y)
    ensures Sort(pre + [x] + post, key) == [x] + Sort(pre + post, key)
  {
    var rest := pre + post;
    var r := Sort(rest, key);
    SortCorrect(rest, key);
    SameBucketsSameMembers(r, rest, key);
    assert forall y | y in r :: key(x) <= key(y) by {
      forall y | y in r ensures key(x) <= key(y) {
        assert y in r;
        assert y in rest;
        assert y in pre || y in post;
      }
    }
    assert Sorted([x] + r, key);
    forall k ensures Bucket([x] + r, key, k) == Bucket(pre + [x] + post, key, k) {
      BucketConcat([x], r, key, k);
      BucketHead(pre, x, post, key, k);
    }
    SortUnique(pre + [x] + post, [x] + r, key);
  }

  lemma {:induction false} SortOfSorted<T>(s: seq<T>, key: T -> int)
    requires Sorted(s, key)
    ensures Sort(s, key) == s
  {
    SortUnique(s, s, key);
  }

  lemma {:induction false} SortLength<T>(s: seq<T>, key: T -> int)
    ensures |Sort(s, key)| == |s|
  {
    if s != [] {
      SortLength(s[..|s| - 1], key);
      InsertLength(Sort(s[..|s| - 1], key), key, s[|s| - 1]);
    }
  }

  /** The ends of a sorted list are among its elements and bound them. */
  lemma {:induction false} SortEnds<T>(s: seq<T>, key: T -> int)
    requires s != []
    ensures var r := Sort(s, key);
            && r != [] && r[0] in s && r[|r| - 1] in s
            && forall x | x in s :: key(r[0]) <= key(x) && key(x) <= key(r[|r| - 1])
  {
    hide Sort;
    var r := Sort(s, key);
    SortLength(s, key);
    SortCorrect(s, key);
    SameBucketsSameMembers(r, s, key);
    assert r[0] in r && r[|r| - 1] in r;
    forall x | x in s ensures key(r[0]) <= key(x) && key(x) <= key(r[|r| - 1]) {
      assert x in r;
      var j :| 0 <= j < |r| && r[j] == x;
    }
  }

  lemma {:induction false} InsertLength<T>(s: seq<T>, key: T -> int, x: T)
    ensures |Insert(s, key, x)| == |s| + 1
  {
    if s != [] {
      InsertLength(s[1..], key, x);
    }
  }
}
